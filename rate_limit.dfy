/** `authRateLimit`: a process-wide map from client address to an attempt
    bucket, allowing at most five register/login attempts per 15-minute window. */
module RateLimit {
  import opened Opt

  /** 15 minutes in milliseconds. */
  const WindowMs: nat := 900000
  const MaxAttempts: nat := 5
  const TooManyMessage := "Too many authentication attempts. Please try again later."

  datatype Bucket = Bucket(count: nat, resetTime: nat)

  function Lookup(attempts: map<string, Bucket>, ip: string): Option<Bucket> {
    if ip in attempts then Some(attempts[ip]) else None
  }

  /** One request against the caller's bucket (absent for a new address):
      whether it may proceed, and the bucket that is stored if it does. */
  function Attempt(b: Option<Bucket>, now: nat): (r: (bool, Bucket))
    ensures b.None? ==> r == (true, Bucket(1, now + WindowMs))
    ensures b.Some? && now > b.value.resetTime ==> r == (true, Bucket(1, now + WindowMs))
    ensures b.Some? && now <= b.value.resetTime ==>
      r == if b.value.count >= MaxAttempts then (false, b.value)
           else (true, b.value.(count := b.value.count + 1))
    ensures b.Some? && b.value.count <= MaxAttempts ==> r.1.count <= MaxAttempts
  {
    var newWindow := Bucket(0, now + WindowMs);
    var current := if b.None? then newWindow else b.value;
    var current := if now > current.resetTime then newWindow else current;
    if current.count >= MaxAttempts then (false, current)
    else (true, current.(count := current.count + 1))
  }

  /** A request is refused only from a full bucket whose window is still open,
      and a refused request leaves the bucket untouched. */
  lemma RefusedOnlyWhenFull(b: Option<Bucket>, now: nat)
    requires !Attempt(b, now).0
    ensures b.Some? && now <= b.value.resetTime && b.value.count >= MaxAttempts
    ensures Attempt(b, now).1 == b.value
  {
  }

  /** The verdicts for a sequence of requests from one address. */
  function Run(b: Option<Bucket>, times: seq<nat>): (r: seq<bool>)
    ensures |r| == |times|
    decreases |times|
  {
    if times == [] then []
    else
      var step := Attempt(b, times[0]);
      [step.0] + Run(if step.0 then Some(step.1) else b, times[1..])
  }

  /** Inside an open window a bucket that already holds `count` attempts lets
      through exactly the next `MaxAttempts - count` requests. */
  lemma {:induction false} RunInsideWindow(count: nat, resetTime: nat, times: seq<nat>)
    requires forall i :: 0 <= i < |times| ==> times[i] <= resetTime
    ensures forall i :: 0 <= i < |times| ==> (Run(Some(Bucket(count, resetTime)), times)[i] <==> count + i < MaxAttempts)
    decreases |times|
  {
    if times != [] {
      var r := Run(Some(Bucket(count, resetTime)), times);
      if count < MaxAttempts {
        RunInsideWindow(count + 1, resetTime, times[1..]);
        assert r == [true] + Run(Some(Bucket(count + 1, resetTime)), times[1..]);
      } else {
        RunInsideWindow(count, resetTime, times[1..]);
        assert r == [false] + Run(Some(Bucket(count, resetTime)), times[1..]);
      }
    }
  }

  /** From a new address, of requests that all fall within 15 minutes of the
      first, the first five proceed and every later one (the sixth on) is refused. */
  lemma SixthAttemptRefused(times: seq<nat>)
    requires |times| > 0
    requires forall i :: 0 <= i < |times| ==> times[i] <= times[0] + WindowMs
    ensures forall i :: 0 <= i < |times| ==> (Run(None, times)[i] <==> i < MaxAttempts)
  {
    var reset := times[0] + WindowMs;
    RunInsideWindow(1, reset, times[1..]);
    assert Run(None, times) == [true] + Run(Some(Bucket(1, reset)), times[1..]);
  }

  /** Once the window has passed, the next request proceeds and opens a new window. */
  lemma AllowedAfterWindow(b: Bucket, now: nat)
    requires now > b.resetTime
    ensures Attempt(Some(b), now) == (true, Bucket(1, now + WindowMs))
  {
  }

  /** The in-memory store of buckets, one per client address. */
  class RateLimiter {
    var attempts: map<string, Bucket>

    ghost predicate Valid()
      reads this
    {
      forall ip :: ip in attempts ==> attempts[ip].count <= MaxAttempts
    }

    constructor ()
      ensures Valid() && attempts == map[]
    {
      attempts := map[];
    }

    /** `authRateLimit` for one request from `ip` at `now`; only the caller's
        bucket is read or written. */
    method Check(ip: string, now: nat) returns (allowed: bool)
      requires Valid()
      modifies this
      ensures Valid()
      ensures allowed == Attempt(Lookup(old(attempts), ip), now).0
      ensures attempts == if allowed then old(attempts)[ip := Attempt(Lookup(old(attempts), ip), now).1]
                          else old(attempts)
    {
      var bucket := if ip in attempts then attempts[ip] else Bucket(0, now + WindowMs);
      if now > bucket.resetTime {
        // the bucket object is reset in place, so a stored one changes at once
        bucket := Bucket(0, now + WindowMs);
        if ip in attempts {
          attempts := attempts[ip := bucket];
        }
      }
      if bucket.count >= MaxAttempts {
        return false;
      }
      bucket := bucket.(count := bucket.count + 1);
      attempts := attempts[ip := bucket];
      allowed := true;
    }
  }
}
