/** The connection pool's circuit breaker. */
module BreakerSpec {
  import opened AttachmentTypes

  datatype Circuit = Closed | Open | HalfOpen

  datatype Breaker = Breaker(threshold: int, timeout: int, failures: int, lastFailTime: Option<Time>, state: Circuit)

  function NewBreaker(threshold: int, timeout: int): Breaker {
    Breaker(threshold, timeout, 0, None, Closed)
  }

  /** An open breaker lets a request through once the timeout has passed, and is then half-open. */
  function Allow(b: Breaker, now: Time): (Breaker, bool) {
    match b.state
    case Closed => (b, true)
    case HalfOpen => (b, true)
    case Open =>
      if b.lastFailTime.None? || now - b.lastFailTime.value > b.timeout
      then (b.(state := HalfOpen, failures := 0), true)
      else (b, false)
  }

  function RecordSuccess(b: Breaker): Breaker {
    b.(state := if b.state == HalfOpen then Closed else b.state, failures := 0)
  }

  function RecordFailure(b: Breaker, now: Time): Breaker {
    b.(failures := b.failures + 1,
       lastFailTime := Some(now),
       state := if b.failures + 1 >= b.threshold then Open else b.state)
  }

  // ---- histories ----

  datatype Event = Asked(at: Time) | Succeeded | Failed(at: Time)

  function Step(b: Breaker, e: Event): Breaker {
    match e
    case Asked(at) => Allow(b, at).0
    case Succeeded => RecordSuccess(b)
    case Failed(at) => RecordFailure(b, at)
  }

  function After(b: Breaker, h: seq<Event>): Breaker {
    if h == [] then b else Step(After(b, h[..|h| - 1]), h[|h| - 1])
  }

  function FailureCount(h: seq<Event>): nat {
    if h == [] then 0 else FailureCount(h[..|h| - 1]) + if h[|h| - 1].Failed? then 1 else 0
  }

  /** Event `i` is a success, or the request that turned the breaker half-open. */
  ghost predicate Resets(b: Breaker, h: seq<Event>, i: nat)
    requires i < |h|
  {
    h[i].Succeeded? || (h[i].Asked? && After(b, h[..i]).state == Open && After(b, h[..i + 1]).state == HalfOpen)
  }

  /** From `k` on nothing has reset the count, and what is before `k` ended in a reset or is nothing. */
  ghost predicate Since(b: Breaker, h: seq<Event>, k: nat) {
    && k <= |h|
    && (k == 0 || Resets(b, h, k - 1))
    && (forall i :: k <= i < |h| ==> !Resets(b, h, i))
  }

  /** When the last failure of the history was recorded. */
  function LastFailure(h: seq<Event>): Option<Time> {
    if h == [] then None
    else if h[|h| - 1].Failed? then Some(h[|h| - 1].at)
    else LastFailure(h[..|h| - 1])
  }

  lemma {:induction false} OpenFacts(threshold: int, timeout: int, h: seq<Event>)
    requires threshold >= 1
    ensures var b := After(NewBreaker(threshold, timeout), h);
            && b.threshold == threshold && b.timeout == timeout && b.failures >= 0
            && (b.state != Open ==> b.failures < threshold)
            && b.lastFailTime == LastFailure(h)
            && (b.state == Open ==> b.lastFailTime.Some?)
  {
    if h != [] {
      OpenFacts(threshold, timeout, h[..|h| - 1]);
    }
  }

  lemma SinceGrows(b: Breaker, init: seq<Event>, last: Event, k: nat)
    requires Since(b, init, k)
    ensures var h := init + [last]; Since(b, h, if Resets(b, h, |init|) then |h| else k)
  {
    PrefixResets(b, init, last);
  }

  /** A reset empties the count; otherwise a failure adds one to it. */
  lemma CountGrows(b: Breaker, init: seq<Event>, last: Event)
    ensures var h := init + [last];
            After(b, h).failures
              == if Resets(b, h, |init|) then 0 else After(b, init).failures + if last.Failed? then 1 else 0
  {
    var h := init + [last];
    assert h[..|init|] == init && h[..|init| + 1] == h;
  }

  lemma {:induction false} CountedSince(b: Breaker, h: seq<Event>) returns (k: nat)
    requires b.failures == 0
    ensures Since(b, h, k) && After(b, h).failures == FailureCount(h[k..])
  {
    if h == [] {
      k := 0;
    } else {
      var init, last := h[..|h| - 1], h[|h| - 1];
      var j := CountedSince(b, init);
      assert h == init + [last];
      SinceGrows(b, init, last, j);
      CountGrows(b, init, last);
      k := if Resets(b, h, |init|) then |h| else j;
      assert k == j ==> h[k..][..|h| - 1 - k] == init[k..];
    }
  }

  /**
   * The count is the number of failures since the last success, half-open turn or creation, and below the
   * threshold unless the breaker is open. An open breaker remembers the last failure.
   */
  lemma History(threshold: int, timeout: int, h: seq<Event>) returns (k: nat)
    requires threshold >= 1
    ensures var b := After(NewBreaker(threshold, timeout), h);
            && Since(NewBreaker(threshold, timeout), h, k)
            && b.failures == FailureCount(h[k..])
            && (b.state != Open ==> FailureCount(h[k..]) < threshold)
            && (b.state == Open ==> b.lastFailTime == LastFailure(h) && LastFailure(h).Some?)
            && b.threshold == threshold && b.timeout == timeout
  {
    OpenFacts(threshold, timeout, h);
    k := CountedSince(NewBreaker(threshold, timeout), h);
  }

  lemma PrefixResets(b: Breaker, init: seq<Event>, last: Event)
    ensures forall i: nat :: i < |init| ==> (Resets(b, init + [last], i) <==> Resets(b, init, i))
  {
    forall i: nat | i < |init| ensures Resets(b, init + [last], i) <==> Resets(b, init, i) {
      assert (init + [last])[..i] == init[..i] && (init + [last])[..i + 1] == init[..i + 1];
    }
  }

  lemma SinceUnique(b: Breaker, h: seq<Event>, k: nat, k': nat)
    requires Since(b, h, k) && Since(b, h, k')
    ensures k == k'
  {}

  /** A breaker that is not open opens exactly at the failure that makes the count reach the threshold. */
  lemma OpensAtThreshold(threshold: int, timeout: int, h: seq<Event>, e: Event, k: nat)
    requires threshold >= 1
    requires Since(NewBreaker(threshold, timeout), h, k) && After(NewBreaker(threshold, timeout), h).state != Open
    ensures After(NewBreaker(threshold, timeout), h + [e]).state == Open
            <==> e.Failed? && FailureCount(h[k..]) + 1 == threshold
  {
    var k' := History(threshold, timeout, h);
    SinceUnique(NewBreaker(threshold, timeout), h, k, k');
    assert (h + [e])[..|h|] == h;
  }

  /** Every request of `g` comes within the timeout after the last failure before it. */
  ghost predicate TooSoon(timeout: int, h: seq<Event>, g: seq<Event>) {
    forall i :: 0 <= i < |g| && g[i].Asked? ==>
      var failed := LastFailure(h + g[..i]);
      failed.Some? ==> g[i].at - failed.value <= timeout
  }

  /**
   * Once open, the breaker stays open and admits nothing for as long as requests keep coming within the timeout
   * after the last recorded failure, whatever else is recorded.
   */
  lemma {:induction false} OpenAdmitsNothing(threshold: int, timeout: int, h: seq<Event>, g: seq<Event>)
    requires threshold >= 1 && After(NewBreaker(threshold, timeout), h).state == Open && TooSoon(timeout, h, g)
    ensures After(NewBreaker(threshold, timeout), h + g).state == Open
    ensures forall i :: 0 <= i < |g| && g[i].Asked? ==>
              !Allow(After(NewBreaker(threshold, timeout), h + g[..i]), g[i].at).1
  {
    if g == [] {
      assert h + g == h;
    } else {
      var init, last := g[..|g| - 1], g[|g| - 1];
      assert forall i :: 0 <= i <= |init| ==> g[..i] == init[..i];
      assert init[..|init|] == init;
      OpenAdmitsNothing(threshold, timeout, h, init);
      StaysOpen(threshold, timeout, h + init, last);
      assert h + g == h + init + [last];
    }
  }

  lemma StaysOpen(threshold: int, timeout: int, h: seq<Event>, e: Event)
    requires threshold >= 1 && After(NewBreaker(threshold, timeout), h).state == Open
    requires e.Asked? && LastFailure(h).Some? ==> e.at - LastFailure(h).value <= timeout
    ensures After(NewBreaker(threshold, timeout), h + [e]).state == Open
    ensures e.Asked? ==> !Allow(After(NewBreaker(threshold, timeout), h), e.at).1
  {
    var k := History(threshold, timeout, h);
    assert (h + [e])[..|h|] == h;
  }

  /** A half-open breaker admits any number of requests until an outcome is recorded. */
  lemma {:induction false} HalfOpenAdmitsAll(b: Breaker, g: seq<Event>)
    requires b.state == HalfOpen && forall i :: 0 <= i < |g| ==> g[i].Asked?
    ensures After(b, g) == b
    ensures forall i :: 0 <= i < |g| ==> Allow(After(b, g[..i]), g[i].at).1
  {
    if g != [] {
      var init := g[..|g| - 1];
      HalfOpenAdmitsAll(b, init);
      assert forall i :: 0 <= i < |init| ==> init[..i] == g[..i];
    }
  }

  /** One failure and one late request get it there, and two requests go through. */
  lemma HalfOpenReached()
    ensures var b := After(NewBreaker(1, 0), [Failed(0), Asked(1)]);
            b.state == HalfOpen && Allow(b, 1).1 && Allow(Allow(b, 1).0, 1).1
  {
    var h := [Failed(0), Asked(1)];
    assert h[..1] == [Failed(0)] && h[..1][..0] == [];
    assert After(NewBreaker(1, 0), h[..1]) == RecordFailure(NewBreaker(1, 0), 0);
  }

  /** The first request after that is admitted, and starts the count afresh. */
  lemma LateRequestAdmitted(threshold: int, timeout: int, h: seq<Event>, now: Time)
    requires threshold >= 1 && After(NewBreaker(threshold, timeout), h).state == Open
    requires LastFailure(h).Some? && now - LastFailure(h).value > timeout
    ensures Allow(After(NewBreaker(threshold, timeout), h), now).1
    ensures Resets(NewBreaker(threshold, timeout), h + [Asked(now)], |h|)
  {
    var k := History(threshold, timeout, h);
    assert (h + [Asked(now)])[..|h|] == h && (h + [Asked(now)])[..|h| + 1] == h + [Asked(now)];
  }
}

module Breakers {
  import opened AttachmentTypes
  import Spec = BreakerSpec

  class CircuitBreaker {
    const threshold: int
    const timeout: int
    var failures: int
    var lastFailTime: Option<Time>
    var state: Spec.Circuit

    ghost function Value(): Spec.Breaker
      reads this
    {
      Spec.Breaker(threshold, timeout, failures, lastFailTime, state)
    }

    constructor (threshold: int, timeout: int)
      ensures Value() == Spec.NewBreaker(threshold, timeout)
    {
      this.threshold, this.timeout := threshold, timeout;
      failures, lastFailTime, state := 0, None, Spec.Closed;
    }

    method Allow(now: Time) returns (allowed: bool)
      modifies this
      ensures (Value(), allowed) == Spec.Allow(old(Value()), now)
    {
      match state {
        case Closed => return true;
        case HalfOpen => return true;
        case Open =>
          if lastFailTime.None? || now - lastFailTime.value > timeout {
            state := Spec.HalfOpen;
            failures := 0;
            return true;
          }
          return false;
      }
    }

    method RecordSuccess()
      modifies this
      ensures Value() == Spec.RecordSuccess(old(Value()))
    {
      if state == Spec.HalfOpen {
        state := Spec.Closed;
      }
      failures := 0;
    }

    method RecordFailure(now: Time)
      modifies this
      ensures Value() == Spec.RecordFailure(old(Value()), now)
    {
      failures := failures + 1;
      lastFailTime := Some(now);
      if failures >= threshold && state != Spec.Open {
        state := Spec.Open;
      }
    }
  }
}
