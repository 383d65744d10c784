/**
 The per-session receive limit.

 Times are nanoseconds on the clock of time.Now, which is an argument here.
 */
module RateLimit {
  const SECOND: int := 1_000_000_000

  datatype Limiter = Limiter(limit: int, count: int, last: int)

  /** Whether a message that arrives now is over the limit, and the limiter after it. */
  function Arrive(l: Limiter, now: int): (r: (Limiter, bool)) {
    if l.limit == 0 then (l, false)
    else if l.count + 1 <= l.limit then (l.(count := l.count + 1), false)
    else if now - l.last < SECOND then (l.(count := l.count + 1), true)
    else (l.(count := 0, last := now), false)
  }

  class Session {
    var limitPerSecond: int
    var lastCount: int
    var lastTime: int
    var shutDown: bool
    var delivered: nat

    constructor (zeroTime: int)
      ensures Limits() == Limiter(0, 0, zeroTime) && !shutDown && delivered == 0
    {
      limitPerSecond, lastCount, lastTime, shutDown, delivered := 0, 0, zeroTime, false, 0;
    }

    function Limits(): Limiter
      reads this
    {
      Limiter(limitPerSecond, lastCount, lastTime)
    }

    method SetReceiveLimitPerSecond(limit: int)
      modifies this`limitPerSecond
      ensures Limits() == old(Limits()).(limit := limit)
    {
      limitPerSecond := limit;
    }

    method ReceiveLimit(now: int) returns (limited: bool)
      modifies this`lastCount, this`lastTime
      ensures (Limits(), limited) == Arrive(old(Limits()), now)
    {
      if limitPerSecond == 0 {
        return false;
      }
      lastCount := lastCount + 1;
      if lastCount > limitPerSecond {
        if now - lastTime < SECOND {
          return true;
        }
        lastTime := now;
        lastCount := 0;
      }
      return false;
    }

    /** A message over the limit shuts the session down and is not handed on. */
    method Receive(now: int)
      modifies this
      ensures Limits() == Arrive(old(Limits()), now).0
      ensures delivered == old(delivered) + (if Arrive(old(Limits()), now).1 then 0 else 1)
      ensures shutDown == (old(shutDown) || Arrive(old(Limits()), now).1)
    {
      var limited := ReceiveLimit(now);
      if limited {
        shutDown := true;
        return;
      }
      delivered := delivered + 1;
    }
  }

  predicate NonDecreasing(times: seq<int>) {
    forall i, j :: 0 <= i < j < |times| ==> times[i] <= times[j]
  }

  /** How many of the messages are admitted at a time in [from, to). */
  function Admitted(l: Limiter, times: seq<int>, from: int, to: int): nat
    decreases |times|
  {
    if times == [] then 0
    else
      var (next, limited) := Arrive(l, times[0]);
      (if !limited && from <= times[0] < to then 1 else 0) + Admitted(next, times[1..], from, to)
  }

  lemma {:induction false} NoneOutside(l: Limiter, times: seq<int>, from: int, to: int)
    requires NonDecreasing(times) && (times != [] ==> to <= times[0])
    ensures Admitted(l, times, from, to) == 0
    decreases |times|
  {
    if times != [] {
      NoneOutside(Arrive(l, times[0]).0, times[1..], from, to);
    }
  }

  /** A limit of zero is no limit. */
  lemma {:induction false} ZeroIsUnlimited(l: Limiter, times: seq<int>, from: int, to: int)
    requires l.limit == 0 && forall i :: 0 <= i < |times| ==> from <= times[i] < to
    ensures Admitted(l, times, from, to) == |times|
    decreases |times|
  {
    if times != [] {
      ZeroIsUnlimited(l, times[1..], from, to);
    }
  }

  // ---- The bound ----

  /** What is admitted between two resets. */
  function Quota(l: Limiter): nat {
    if l.limit < 0 then 0 else l.limit
  }

  function Left(l: Limiter): nat {
    if l.count < l.limit then l.limit - l.count else 0
  }

  /** A reset needs a whole second since the one before it, so at most `resets` of them fit before `to`. */
  predicate FewResets(l: Limiter, resets: nat, from: int, to: int) {
    to - (if l.last + SECOND <= from then from else l.last + SECOND) <= resets * SECOND
  }

  lemma {:induction false} AdmittedInside(l: Limiter, times: seq<int>, from: int, to: int, resets: nat)
    requires l.limit != 0 && l.count >= 0
    requires NonDecreasing(times) && (times != [] ==> from <= times[0])
    requires FewResets(l, resets, from, to)
    ensures Admitted(l, times, from, to) <= Left(l) + resets * (Quota(l) + 1)
    decreases |times|
  {
    if times != [] {
      var now, next := times[0], Arrive(l, times[0]).0;
      if to <= now {
        NoneOutside(l, times, from, to);
      } else if next.last == l.last && next.count == l.count + 1 {
        AdmittedInside(next, times[1..], from, to, resets);
      } else {
        assert resets > 0;
        assert resets * (Quota(l) + 1) == (resets - 1) * (Quota(l) + 1) + Quota(l) + 1;
        AdmittedInside(next, times[1..], from, to, resets - 1);
      }
    }
  }

  /** In no window of T whole seconds are more than T(L + 1) + L messages admitted. */
  lemma {:induction false} RateLimited(l: Limiter, times: seq<int>, from: int, seconds: nat)
    requires l.limit != 0 && l.count >= 0 && NonDecreasing(times)
    ensures Admitted(l, times, from, from + seconds * SECOND) <= seconds * (Quota(l) + 1) + Quota(l)
    decreases |times|
  {
    if times != [] && times[0] < from {
      RateLimited(Arrive(l, times[0]).0, times[1..], from, seconds);
    } else {
      AdmittedInside(l, times, from, from + seconds * SECOND, seconds);
    }
  }

  // ---- The bound is reached ----

  function Burst(n: nat, at: int): (r: seq<int>)
    ensures |r| == n && forall i :: 0 <= i < n ==> r[i] == at
  {
    seq(n, _ => at)
  }

  /** One burst a second. */
  function Bursts(seconds: nat, limit: nat, at: int): seq<int> {
    if seconds == 0 then [] else Burst(limit + 1, at) + Bursts(seconds - 1, limit, at + SECOND)
  }

  lemma {:induction false} BurstsNonDecreasing(seconds: nat, limit: nat, at: int)
    ensures NonDecreasing(Bursts(seconds, limit, at))
    ensures forall i :: 0 <= i < |Bursts(seconds, limit, at)| ==> at <= Bursts(seconds, limit, at)[i]
  {
    if seconds > 0 {
      BurstsNonDecreasing(seconds - 1, limit, at + SECOND);
    }
  }

  lemma {:induction false} QuotaAdmitted(l: Limiter, n: nat, rest: seq<int>, at: int, from: int, to: int)
    requires l.limit > 0 && 0 <= l.count && l.count + n <= l.limit && from <= at < to
    ensures Admitted(l, Burst(n, at) + rest, from, to) == n + Admitted(l.(count := l.count + n), rest, from, to)
    decreases n
  {
    var times := Burst(n, at) + rest;
    if n == 0 {
      assert times == rest;
    } else {
      assert times[1..] == Burst(n - 1, at) + rest;
      QuotaAdmitted(l.(count := l.count + 1), n - 1, rest, at, from, to);
    }
  }

  lemma {:induction false} BurstsAdmitted(l: Limiter, seconds: nat, at: int, from: int, to: int)
    requires l.limit > 0 && l.count == l.limit && l.last + SECOND <= at
    requires from <= at && at + seconds * SECOND <= to
    ensures Admitted(l, Bursts(seconds, l.limit, at), from, to) == seconds * (l.limit + 1)
    decreases seconds
  {
    if seconds > 0 {
      var rest := Bursts(seconds - 1, l.limit, at + SECOND);
      var times := Bursts(seconds, l.limit, at);
      assert times[1..] == Burst(l.limit, at) + rest;
      var reset := l.(count := 0, last := at);
      QuotaAdmitted(reset, l.limit, rest, at, from, to);
      BurstsAdmitted(reset.(count := l.limit), seconds - 1, at + SECOND, from, to);
      assert seconds * (l.limit + 1) == (seconds - 1) * (l.limit + 1) + l.limit + 1;
    }
  }

  /** The bound cannot be lowered: a fresh session admits exactly that many, for every limit and every window. */
  lemma BoundIsReached(limit: nat, seconds: nat, zeroTime: int, at: int)
    requires limit > 0 && seconds > 0 && zeroTime + SECOND <= at
    ensures var times := Burst(limit, at) + Bursts(seconds, limit, at);
            && NonDecreasing(times)
            && Admitted(Limiter(limit, 0, zeroTime), times, at, at + seconds * SECOND) == seconds * (limit + 1) + limit
  {
    var l := Limiter(limit, 0, zeroTime);
    BurstsNonDecreasing(seconds, limit, at);
    QuotaAdmitted(l, limit, Bursts(seconds, limit, at), at, at, at + seconds * SECOND);
    BurstsAdmitted(l.(count := limit), seconds, at, at, at + seconds * SECOND);
  }
}
