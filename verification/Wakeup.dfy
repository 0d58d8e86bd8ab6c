/**
 * The notify token under interleaving (opcda/subscribe.go and its consumer,
 * frontend/grpc/subscribe.go). Any number of mergers and invalidators run beside
 * one consumer; a step is what one goroutine does without giving up the lock or
 * between two channel operations.
 */
module Wakeup {
  import opened Prelude
  import opened Coalescing

  /** Waiting: in its select. Draining: it took the token and has not drained yet. Gone: the stream ended. */
  datatype Consumer = Waiting | Draining | Gone

  /**
   * `notifying` mergers and `closing` invalidators have released the lock but not
   * yet sent the token, or closed done. `merged`, `drained` and `dropped` are the
   * history: every pair accepted, the logs handed out, the log an invalidation cut off.
   */
  datatype World<V> = World(
    log: Log<V>, closed: bool, token: bool, notifying: nat, consumer: Consumer, closing: nat, closes: nat,
    merged: Log<V>, drained: seq<Log<V>>, dropped: Log<V>)

  datatype Step<V> =
    | MergeUnderLock(batch: Log<V>)
    | SendToken
    | ReceiveToken
    | DrainUnderLock
    | InvalidateUnderLock
    | CloseDone
    | SeeDone
    | Leave

  function Start<V>(): World<V> { World([], false, false, 0, Waiting, 0, 0, [], [], []) }

  predicate Enabled<V(==)>(w: World<V>, step: Step<V>) {
    match step
    case MergeUnderLock(batch) => batch != []
    case SendToken => w.notifying > 0
    case ReceiveToken => w.consumer == Waiting && w.token
    case DrainUnderLock => w.consumer == Draining
    case InvalidateUnderLock => true
    case CloseDone => w.closing > 0
    case SeeDone => w.consumer == Waiting && w.closes > 0
    case Leave => w.consumer == Waiting
  }

  /** The send is non-blocking: with the slot already taken it does nothing. */
  function Do<V(==)>(w: World<V>, step: Step<V>): World<V>
    requires Enabled(w, step)
  {
    match step
    case MergeUnderLock(batch) =>
      if w.closed then w else w.(log := w.log + batch, notifying := w.notifying + 1, merged := w.merged + batch)
    case SendToken => w.(token := true, notifying := w.notifying - 1)
    case ReceiveToken => w.(token := false, consumer := Draining)
    case DrainUnderLock => w.(log := [], consumer := Waiting, drained := w.drained + [w.log])
    case InvalidateUnderLock =>
      if w.closed then w else w.(log := [], closed := true, closing := w.closing + 1, dropped := w.log)
    case CloseDone => w.(closing := w.closing - 1, closes := w.closes + 1)
    case SeeDone => w.(consumer := Gone)
    case Leave => w.(consumer := Gone)
  }

  predicate LegalRun<V(==)>(w: World<V>, steps: seq<Step<V>>)
    decreases |steps|
  {
    steps == [] || (Enabled(w, steps[0]) && LegalRun(Do(w, steps[0]), steps[1..]))
  }

  function Run<V(==)>(w: World<V>, steps: seq<Step<V>>): World<V>
    requires LegalRun(w, steps)
    decreases |steps|
  {
    if steps == [] then w else Run(Do(w, steps[0]), steps[1..])
  }

  function Concat<V>(logs: seq<Log<V>>): Log<V> {
    if logs == [] then [] else Concat(logs[..|logs| - 1]) + logs[|logs| - 1]
  }

  /** A live pending set has a token waiting, a merger about to send one, or a consumer about to drain. */
  predicate NoLostWakeup<V(==)>(w: World<V>) {
    w.log != [] ==> w.token || w.notifying > 0 || w.consumer == Draining
  }

  /** Done is closed once, by the one invalidator that found the set open, and nothing is pending from then on. */
  predicate ClosedOnce<V(==)>(w: World<V>) {
    w.closing + w.closes == (if w.closed then 1 else 0) && (w.closed ==> w.log == [])
  }

  /** Every accepted pair was handed out once, in order, is still pending, or was cut off by the invalidation. */
  predicate Conserved<V(==)>(w: World<V>) {
    && (!w.closed ==> w.merged == Concat(w.drained) + w.log && w.dropped == [])
    && (w.closed ==> w.merged == Concat(w.drained) + w.dropped)
  }

  lemma StepKeeps<V>(w: World<V>, step: Step<V>)
    requires Enabled(w, step) && NoLostWakeup(w) && ClosedOnce(w) && Conserved(w)
    ensures NoLostWakeup(Do(w, step)) && ClosedOnce(Do(w, step)) && Conserved(Do(w, step))
  {
  }

  /** In every interleaving, from the start, no wake-up is lost, done is closed at most once and no pair is lost or repeated. */
  lemma {:induction false} EveryInterleaving<V>(w: World<V>, steps: seq<Step<V>>)
    requires LegalRun(w, steps) && NoLostWakeup(w) && ClosedOnce(w) && Conserved(w)
    ensures var v := Run(w, steps); NoLostWakeup(v) && ClosedOnce(v) && Conserved(v)
    decreases |steps|
  {
    if steps != [] {
      StepKeeps(w, steps[0]);
      EveryInterleaving(Do(w, steps[0]), steps[1..]);
    }
  }

  lemma StartIsSafe<V>(steps: seq<Step<V>>)
    requires LegalRun(Start(), steps)
    ensures var v := Run(Start(), steps); NoLostWakeup(v) && ClosedOnce(v) && Conserved(v)
  {
    EveryInterleaving(Start<V>(), steps);
  }

  /** The steps the goroutines already under way owe: send the token if it is not there, receive it, drain. */
  function Owed<V(==)>(w: World<V>): seq<Step<V>> {
    if w.consumer == Draining then [DrainUnderLock]
    else if w.token then [ReceiveToken, DrainUnderLock]
    else [SendToken, ReceiveToken, DrainUnderLock]
  }

  /** With a consumer there, at most three steps that no further merge or data is needed for deliver the whole pending set. */
  lemma PendingIsDelivered<V>(w: World<V>)
    requires NoLostWakeup(w) && w.log != [] && w.consumer != Gone
    ensures LegalRun(w, Owed(w)) && |Owed(w)| <= 3
    ensures var v := Run(w, Owed(w)); v.log == [] && v.drained == w.drained + [w.log] && v.consumer == Waiting
  {
    var three: seq<Step<V>> := [SendToken] + ([ReceiveToken] + ([DrainUnderLock] + []));
    assert three == [SendToken, ReceiveToken, DrainUnderLock];
    var v := w;
    if w.consumer != Draining {
      if !w.token {
        Unfold(v, SendToken, [ReceiveToken] + ([DrainUnderLock] + []));
        v := Do(v, SendToken);
      }
      Unfold(v, ReceiveToken, [DrainUnderLock] + []);
      v := Do(v, ReceiveToken);
      assert three[1..] == [ReceiveToken] + ([DrainUnderLock] + []) == [ReceiveToken, DrainUnderLock];
    }
    Unfold(v, DrainUnderLock, []);
  }

  lemma Unfold<V>(w: World<V>, step: Step<V>, rest: seq<Step<V>>)
    requires Enabled(w, step)
    ensures LegalRun(w, [step] + rest) <==> LegalRun(Do(w, step), rest)
    ensures LegalRun(w, [step] + rest) ==> Run(w, [step] + rest) == Run(Do(w, step), rest)
  {
  }

  /** Every invalidation leads to one close: when no invalidator is on its way to it, done is closed exactly if the set is. */
  lemma DoneIsClosedExactlyOnce<V>(steps: seq<Step<V>>)
    requires LegalRun(Start(), steps)
    ensures var v := Run(Start(), steps); v.closes <= 1 && (v.closing == 0 ==> (v.closes == 1 <==> v.closed))
  {
    hide Run, LegalRun, NoLostWakeup, Conserved;
    StartIsSafe(steps);
  }
}
