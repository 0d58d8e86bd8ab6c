/**
 * Sequence numbers of secure conversation chunks (opcua/uasc.go; section 6.7.2.4
 * of OPC 10000-6): what a receiver accepts, what a sender produces, and how the
 * two fare across the wrap of a 32-bit number.
 */
module SequenceNumbers {
  import opened Ints

  const LIMIT := 0x1_0000_0000
  const MAX: u32 := 0xFFFF_FFFF
  const LEGACY_FLOOR: u32 := 4_294_966_271

  datatype Numbering = Legacy | ZeroBased

  datatype State = State(numbering: Numbering, started: bool, last: u32)

  function Fresh(numbering: Numbering): State { State(numbering, false, 0) }

  /** Increment in 32 bits. */
  function Succ(x: u32): u32 { if x == MAX then 0 else x + 1 }

  predicate IsValidWrap(s: State, number: u32) {
    if s.numbering == ZeroBased then s.last == MAX && number == 0
    else s.last > LEGACY_FLOOR && number < 1024
  }

  predicate Accepts(s: State, number: u32) {
    if !s.started then s.numbering == ZeroBased ==> number == 0
    else (number == Succ(s.last) && number != 0) || IsValidWrap(s, number)
  }

  /** The state after a number was offered: a refusal leaves it alone. */
  function Offer(s: State, number: u32): State {
    if Accepts(s, number) then s.(started := true, last := number) else s
  }

  function Produced(s: State): u32 {
    if !s.started then (if s.numbering == ZeroBased then 0 else 1)
    else if s.numbering == ZeroBased && s.last == MAX then 0
    else if s.numbering == Legacy && s.last > LEGACY_FLOOR then 0
    else Succ(s.last)
  }

  class SequenceValidator {
    const numbering: Numbering
    var started: bool
    var last: u32

    ghost function Now(): State
      reads this
    {
      State(numbering, started, last)
    }

    constructor (numbering: Numbering)
      ensures Now() == Fresh(numbering)
    {
      this.numbering := numbering;
      started, last := false, 0;
    }

    method Accept(number: u32) returns (ok: bool)
      modifies this
      ensures ok == Accepts(old(Now()), number) && Now() == Offer(old(Now()), number)
    {
      if !started {
        if numbering == ZeroBased && number != 0 {
          return false;
        }
        started, last := true, number;
        return true;
      }
      if number == (last + 1) % LIMIT && number != 0 {
        last := number;
        return true;
      }
      var wraps := if numbering == ZeroBased then last == MAX && number == 0 else last > LEGACY_FLOOR && number < 1024;
      if wraps {
        last := number;
      }
      return wraps;
    }

    method Next() returns (number: u32)
      modifies this
      ensures number == Produced(old(Now())) && Now() == old(Now()).(started := true, last := number)
    {
      if !started {
        started := true;
        last := if numbering == ZeroBased then 0 else 1;
        return last;
      }
      if numbering == ZeroBased {
        if last == MAX {
          last := 0;
          return last;
        }
      } else if last > LEGACY_FLOOR {
        last := 0;
        return last;
      }
      last := (last + 1) % LIMIT;
      return last;
    }
  }

  /** A receiver that has heard nothing takes any number under the legacy rule, and only zero under the other. */
  lemma FirstAccepted(numbering: Numbering, number: u32)
    ensures Accepts(Fresh(numbering), number) <==> numbering == Legacy || number == 0
  {
  }

  /** After a number comes the next one; after the last, zero, or under the legacy rule, after one of the last 1024, one of the first 1024. */
  lemma FollowsExactly(numbering: Numbering, a: u32, b: u32)
    ensures Follows(numbering, a, b)
      <==> b == a + 1 || (numbering == ZeroBased && a == 0xFFFF_FFFF && b == 0) || (numbering == Legacy && a > 4_294_966_271 && b < 1024)
  {
  }

  // ---------------------------------------------------------------- sender and receiver agree

  function Sent(s: State): State { s.(started := true, last := Produced(s)) }

  /** The next `k` numbers of a sender. */
  function Stream(s: State, k: nat): seq<u32>
    decreases k
  {
    if k == 0 then [] else [Produced(s)] + Stream(Sent(s), k - 1)
  }

  /** Every number is accepted, one after another. */
  predicate AcceptsAll(s: State, numbers: seq<u32>)
    decreases |numbers|
  {
    numbers == [] || (Accepts(s, numbers[0]) && AcceptsAll(Offer(s, numbers[0]), numbers[1..]))
  }

  /** A receiver in step with a sender accepts everything the sender will ever produce, across any number of wraps. */
  lemma {:induction false} StreamIsAccepted(s: State, k: nat)
    ensures AcceptsAll(s, Stream(s, k))
    decreases k
  {
    if k > 0 {
      StreamIsAccepted(Sent(s), k - 1);
      assert Stream(s, k)[1..] == Stream(Sent(s), k - 1);
    }
  }

  /** How many numbers a sender goes through before it starts over. */
  function Cycle(numbering: Numbering): nat { if numbering == ZeroBased then 0x1_0000_0000 else 0x1_0000_0000 - 1023 }

  lemma {:induction false} StreamFrom(s: State, k: nat, i: nat)
    requires s.started && s.last < Cycle(s.numbering) && i < k == |Stream(s, k)|
    ensures Stream(s, k)[i] == (s.last + 1 + i) % Cycle(s.numbering)
    decreases i
  {
    hide Produced, Cycle;
    StartsOver(s);
    if i > 0 {
      StreamLength(Sent(s), k - 1);
      StreamFrom(Sent(s), k - 1, i - 1);
    }
    Around(s.numbering, s.last + 1, i);
  }

  lemma StartsOver(s: State)
    requires s.started && s.last < Cycle(s.numbering)
    ensures Cycle(s.numbering) > 0 && Produced(s) == if s.last + 1 == Cycle(s.numbering) then 0 else s.last + 1
  {
  }

  lemma Around(numbering: Numbering, x: nat, i: nat)
    requires 0 < x <= Cycle(numbering)
    ensures Cycle(numbering) > 0 && (x + i) % Cycle(numbering) == ((if x == Cycle(numbering) then 0 else x) + i) % Cycle(numbering)
    ensures x % Cycle(numbering) == if x == Cycle(numbering) then 0 else x
  {
    if numbering == ZeroBased {
      assert (0x1_0000_0000 + i) % 0x1_0000_0000 == i % 0x1_0000_0000;
    } else {
      assert (4_294_966_273 + i) % 4_294_966_273 == i % 4_294_966_273;
    }
  }

  lemma {:induction false} StreamLength(s: State, k: nat)
    ensures |Stream(s, k)| == k
    decreases k
  {
    if k > 0 {
      StreamLength(Sent(s), k - 1);
    }
  }

  /** A new sender counts from zero, or under the legacy rule from one, and starts over at zero after 2^32-1, or under that rule after 2^32-1024. */
  lemma StreamCounts(numbering: Numbering, k: nat, i: nat)
    requires i < k
    ensures |Stream(Fresh(numbering), k)| == k
    ensures Stream(Fresh(numbering), k)[i] == (if numbering == ZeroBased then i else i + 1) % Cycle(numbering)
  {
    var s := Fresh(numbering);
    StreamLength(s, k);
    if i > 0 {
      StreamLength(Sent(s), k - 1);
      StreamFrom(Sent(s), k - 1, i - 1);
    }
  }

  // ---------------------------------------------------------------- no early repetition

  /** Of all the numbers offered, those accepted. */
  function Accepted(s: State, offered: seq<u32>): seq<u32>
    decreases |offered|
  {
    if offered == [] then []
    else (if Accepts(s, offered[0]) then [offered[0]] else []) + Accepted(Offer(s, offered[0]), offered[1..])
  }

  predicate Follows(numbering: Numbering, a: u32, b: u32) {
    Accepts(State(numbering, true, a), b)
  }

  predicate Chain(numbering: Numbering, a: seq<u32>) {
    forall i :: 0 < i < |a| ==> Follows(numbering, a[i - 1], a[i])
  }

  lemma ChainCons(numbering: Numbering, x: u32, rest: seq<u32>)
    requires Chain(numbering, rest) && (rest != [] ==> Follows(numbering, x, rest[0]))
    ensures Chain(numbering, [x] + rest)
  {
  }

  /** Whatever is offered, what is accepted is a chain that starts where the receiver stands. */
  lemma {:induction false} AcceptedIsChain(s: State, offered: seq<u32>)
    ensures Chain(s.numbering, Accepted(s, offered))
    ensures Accepted(s, offered) != [] ==> Accepts(s, Accepted(s, offered)[0])
    decreases |offered|
  {
    if offered != [] {
      var t := Offer(s, offered[0]);
      AcceptedIsChain(t, offered[1..]);
      var rest := Accepted(t, offered[1..]);
      if Accepts(s, offered[0]) {
        assert t == State(s.numbering, true, offered[0]);
        ChainCons(s.numbering, offered[0], rest);
      } else {
        assert [] + rest == rest;
      }
    }
  }

  predicate Consecutive(x: int, y: int) { y == x + 1 }

  function Distance(x: int, y: int): int { y - x }

  /** How often the chain wraps between two positions. */
  function Wraps(a: seq<u32>, i: nat, j: nat): nat
    requires i <= j < |a|
  {
    if i == j then 0 else Wraps(a, i, j - 1) + (if Consecutive(a[j - 1], a[j]) then 0 else 1)
  }

  /** The least distance between two acceptances of one number. */
  function Period(numbering: Numbering): nat {
    if numbering == Legacy then LIMIT - 2046 else LIMIT
  }

  /** Each wrap costs a whole period of the distance the numbers have covered; under the zero-based rule, exactly one. */
  lemma {:induction false} Drift(numbering: Numbering, a: seq<u32>, i: nat, j: nat)
    requires Chain(numbering, a) && i <= j < |a|
    ensures Distance(a[i], a[j]) <= (j - i) - Wraps(a, i, j) * Period(numbering)
    ensures numbering == ZeroBased ==> Distance(a[i], a[j]) == (j - i) - Wraps(a, i, j) * Period(numbering)
    decreases j - i
  {
    if i < j {
      Drift(numbering, a, i, j - 1);
      assert Follows(numbering, a[j - 1], a[j]);
      if !Consecutive(a[j - 1], a[j]) {
        assert Wraps(a, i, j) * Period(numbering) == Wraps(a, i, j - 1) * Period(numbering) + Period(numbering);
      }
    }
  }

  /** No number is accepted again within fewer acceptances than a period, whatever was offered in between. */
  lemma NoEarlyRepeat(s: State, offered: seq<u32>, i: nat, j: nat)
    requires i < j < |Accepted(s, offered)| && Accepted(s, offered)[i] == Accepted(s, offered)[j]
    ensures j - i >= Period(s.numbering)
  {
    var a := Accepted(s, offered);
    AcceptedIsChain(s, offered);
    Drift(s.numbering, a, i, j);
    if Wraps(a, i, j) == 0 {
      Rising(s.numbering, a, i, j);
    } else {
      assert Wraps(a, i, j) * Period(s.numbering) >= Period(s.numbering);
    }
  }

  lemma {:induction false} Rising(numbering: Numbering, a: seq<u32>, i: nat, j: nat)
    requires i <= j < |a| && Wraps(a, i, j) == 0
    ensures Distance(a[i], a[j]) == j - i
  {
    if i < j {
      Rising(numbering, a, i, j - 1);
    }
  }

  /** Under the zero-based rule the k-th number accepted is k, modulo 2^32. */
  lemma ZeroBasedCounts(offered: seq<u32>, k: nat)
    requires k < |Accepted(Fresh(ZeroBased), offered)|
    ensures Accepted(Fresh(ZeroBased), offered)[k] == k % LIMIT
  {
    var a := Accepted(Fresh(ZeroBased), offered);
    AcceptedIsChain(Fresh(ZeroBased), offered);
    Drift(ZeroBased, a, 0, k);
    assert a[k] == k - Wraps(a, 0, k) * LIMIT;
  }

  // ---------------------------------------------------------------- the bound is the best possible

  lemma {:induction false} CountingUp(s: State, n: nat)
    requires s.started && s.last + n < LIMIT
    ensures AcceptsAll(s, seq(n, i requires 0 <= i < n => s.last + 1 + i))
    decreases n
  {
    var a: seq<u32> := seq(n, i requires 0 <= i < n => s.last + 1 + i);
    if n > 0 {
      var t := Offer(s, a[0]);
      CountingUp(t, n - 1);
      assert a[1..] == seq(n - 1, i requires 0 <= i < n - 1 => t.last + 1 + i);
    }
  }

  lemma {:induction false} AcceptsAllAppend(s: State, a: seq<u32>, x: u32)
    requires AcceptsAll(s, a) && Accepts(After(s, a), x)
    ensures AcceptsAll(s, a + [x])
    decreases |a|
  {
    if a == [] {
      assert [] + [x] == [x];
    } else {
      assert (a + [x])[1..] == a[1..] + [x];
      AcceptsAllAppend(Offer(s, a[0]), a[1..], x);
    }
  }

  function After(s: State, a: seq<u32>): State
    decreases |a|
  {
    if a == [] then s else After(Offer(s, a[0]), a[1..])
  }

  lemma {:induction false} AfterLast(s: State, a: seq<u32>)
    requires AcceptsAll(s, a) && a != []
    ensures After(s, a) == State(s.numbering, true, a[|a| - 1])
    decreases |a|
  {
    if |a| > 1 {
      AfterLast(Offer(s, a[0]), a[1..]);
    } else {
      assert a[1..] == [];
    }
  }

  /** Under the legacy rule 1023 can be accepted again after exactly a period: every number up to 2^32-1024, then the wrap. */
  lemma LegacyPeriodIsTight()
    ensures exists a: seq<u32> :: |a| == Period(Legacy) && a[|a| - 1] == 1023 && AcceptsAll(State(Legacy, true, 1023), a)
  {
    var s := State(Legacy, true, 1023);
    var n := Period(Legacy) - 1;
    CountingUp(s, n);
    var a: seq<u32> := seq(n, i requires 0 <= i < n => 1024 + i);
    assert a == seq(n, i requires 0 <= i < n => s.last + 1 + i);
    AfterLast(s, a);
    AcceptsAllAppend(s, a, 1023);
    var b := a + [1023];
    assert |b| == Period(Legacy) && b[|b| - 1] == 1023;
  }
}
