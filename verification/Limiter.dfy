/** The fixed-window rate limiter: a counter per key, swept lazily once per window. Times are nanoseconds. */
module Limiter {

  datatype Counter = Counter(n: int, resetAt: int)

  datatype Call = Call(key: string, now: int)

  /** The limiter that never sweeps: what the lazy one must agree with. */
  datatype Outcome = Outcome(counters: map<string, Counter>, allowed: bool)

  function Decide(counters: map<string, Counter>, max: int, window: int, key: string, now: int): Outcome {
    if key !in counters || now > counters[key].resetAt then
      Outcome(counters[key := Counter(1, now + window)], true)
    else if counters[key].n >= max then
      Outcome(counters, false)
    else
      Outcome(counters[key := counters[key].(n := counters[key].n + 1)], true)
  }

  function Live(counters: map<string, Counter>, now: int): map<string, Counter> {
    map k | k in counters && now <= counters[k].resetAt :: counters[k]
  }

  // ----- the limiter that never sweeps, over a run of calls -----

  function Counters(calls: seq<Call>, max: int, window: int): map<string, Counter> {
    if calls == [] then map[]
    else
      var last := calls[|calls| - 1];
      Decide(Counters(calls[..|calls| - 1], max, window), max, window, last.key, last.now).counters
  }

  predicate Allowed(calls: seq<Call>, max: int, window: int)
    requires calls != []
  {
    var last := calls[|calls| - 1];
    Decide(Counters(calls[..|calls| - 1], max, window), max, window, last.key, last.now).allowed
  }

  predicate InOrder(calls: seq<Call>) {
    forall i, j | 0 <= i <= j < |calls| :: calls[i].now <= calls[j].now
  }

  // ----- agreement -----

  /** Which call is allowed, and what is live afterwards, depends only on the counters that are live. */
  lemma OnlyLiveMatters(a: map<string, Counter>, b: map<string, Counter>, max: int, window: int, key: string, now: int)
    requires Live(a, now) == Live(b, now) && window > 0
    ensures Decide(a, max, window, key, now).allowed == Decide(b, max, window, key, now).allowed
    ensures Live(Decide(a, max, window, key, now).counters, now) == Live(Decide(b, max, window, key, now).counters, now)
  {
    forall k ensures k in a && now <= a[k].resetAt <==> k in b && now <= b[k].resetAt {
      assert k in Live(a, now) <==> k in Live(b, now);
    }
    forall k | k in a && now <= a[k].resetAt ensures a[k] == b[k] {
      assert Live(a, now)[k] == Live(b, now)[k];
    }
  }

  lemma LiveLater(a: map<string, Counter>, b: map<string, Counter>, now: int, later: int)
    requires Live(a, now) == Live(b, now) && now <= later
    ensures Live(a, later) == Live(b, later)
  {
    LiveKept(a, b, now, later);
    LiveKept(b, a, now, later);
  }

  lemma LiveKept(a: map<string, Counter>, b: map<string, Counter>, now: int, later: int)
    requires Live(a, now) == Live(b, now) && now <= later
    ensures forall k | k in a && later <= a[k].resetAt :: k in b && b[k] == a[k]
  {
    forall k | k in a && later <= a[k].resetAt ensures k in b && b[k] == a[k] {
      assert k in Live(a, now);
      assert k in Live(b, now) && Live(a, now)[k] == Live(b, now)[k];
    }
  }

  lemma LiveTwice(a: map<string, Counter>, now: int)
    ensures Live(Live(a, now), now) == Live(a, now)
  {
  }

  lemma InOrderSnoc(calls: seq<Call>, call: Call)
    requires InOrder(calls) && (calls != [] ==> calls[|calls| - 1].now <= call.now)
    ensures InOrder(calls + [call])
  {
  }

  /** One call, decided on the counters left after a sweep or on all of them, against the limiter that never sweeps. */
  lemma Agrees(calls: seq<Call>, max: int, window: int, clock: int, used: map<string, Counter>, key: string, now: int,
               mine: map<string, Counter>, after: map<string, Counter>, allowed: bool)
    requires Outcome(after, allowed) == Decide(used, max, window, key, now)
    requires window > 0 && clock <= now && InOrder(calls) && (calls != [] ==> calls[|calls| - 1].now <= now)
    requires Live(mine, clock) == Live(Counters(calls, max, window), clock)
    requires used == mine || used == Live(mine, now)
    ensures InOrder(calls + [Call(key, now)])
    ensures Allowed(calls + [Call(key, now)], max, window) == allowed
    ensures Live(Counters(calls + [Call(key, now)], max, window), now) == Live(after, now)
  {
    InOrderSnoc(calls, Call(key, now));
    var full := Counters(calls, max, window);
    LiveLater(mine, full, clock, now);
    LiveTwice(mine, now);
    OnlyLiveMatters(used, full, max, window, key, now);
    assert (calls + [Call(key, now)])[..|calls|] == calls;
  }

  class Limiter {
    const max: int
    const window: int
    var counters: map<string, Counter>
    var nextSweep: int

    ghost var calls: seq<Call>

    ghost function Clock(): int
      reads this
    {
      if calls == [] then 0 else calls[|calls| - 1].now
    }

    /** The live counters are those of the limiter that never sweeps, and what was not swept is not much older. */
    ghost predicate Valid()
      reads this
    {
      && window > 0
      && InOrder(calls)
      && Live(counters, Clock()) == Live(Counters(calls, max, window), Clock())
      && nextSweep <= Clock() + window
      && (forall k | k in counters :: nextSweep - window <= counters[k].resetAt)
    }

    constructor (max: int, window: int)
      requires window > 0
      ensures Valid() && calls == [] && this.max == max && this.window == window
    {
      this.max, this.window := max, window;
      counters, nextSweep, calls := map[], 0, [];
    }

    /** Decides exactly like the limiter that never sweeps, and keeps only counters that ended within a window. */
    method Allow(key: string, now: int) returns (allowed: bool)
      requires Valid() && Clock() <= now
      modifies this
      ensures Valid() && calls == old(calls) + [Call(key, now)]
      ensures allowed <==> Allowed(calls, max, window)
      ensures forall k | k in counters :: now - window <= counters[k].resetAt
    {
      allowed := Charge(key, now);
      Agrees(calls, max, window, Clock(), old(Swept(now)), key, now, old(counters), counters, allowed);
      ghost var longer := calls + [Call(key, now)];
      assert longer[|longer| - 1] == Call(key, now);
      calls := longer;
    }

    /** The counters this call decides on: the live ones when a sweep is due, all of them otherwise. */
    ghost function Swept(now: int): map<string, Counter>
      reads this
    {
      if now > nextSweep then Live(counters, now) else counters
    }

    method Charge(key: string, now: int) returns (allowed: bool)
      requires window > 0 && nextSweep <= now + window
      requires forall k | k in counters :: nextSweep - window <= counters[k].resetAt
      modifies this`counters, this`nextSweep
      ensures Outcome(counters, allowed) == Decide(old(Swept(now)), max, window, key, now)
      ensures !allowed <==> key in old(counters) && now <= old(counters)[key].resetAt && old(counters)[key].n >= max
      ensures allowed ==> key in counters &&
                          counters[key] == if key in old(counters) && now <= old(counters)[key].resetAt
                                           then Counter(old(counters)[key].n + 1, old(counters)[key].resetAt)
                                           else Counter(1, now + window)
      ensures forall k | k in counters :: nextSweep - window <= counters[k].resetAt
      ensures now <= nextSweep <= now + window
    {
      if now > nextSweep {
        Sweep(now);
        nextSweep := now + window;
      }
      if key !in counters || now > counters[key].resetAt {
        counters := counters[key := Counter(1, now + window)];
        allowed := true;
      } else if counters[key].n >= max {
        allowed := false;
      } else {
        counters := counters[key := Counter(counters[key].n + 1, counters[key].resetAt)];
        allowed := true;
      }
    }

    /** Deletes expired counters one by one. */
    method Sweep(now: int)
      modifies this`counters
      ensures counters == Live(old(counters), now)
    {
      var keys := counters.Keys;
      while keys != {}
        invariant keys <= counters.Keys
        invariant counters == map k | k in old(counters) && (k in keys || now <= old(counters)[k].resetAt) :: old(counters)[k]
        decreases keys
      {
        var k :| k in keys;
        if now > counters[k].resetAt {
          counters := counters - {k};
        }
        keys := keys - {k};
      }
    }
  }

  // ----- how many calls get through -----

  /** Calls for `key` at or after `from` that were allowed. */
  function Since(calls: seq<Call>, max: int, window: int, key: string, from: int): nat {
    if calls == [] then 0
    else
      var last := calls[|calls| - 1];
      Since(calls[..|calls| - 1], max, window, key, from)
      + if last.key == key && from <= last.now && Allowed(calls, max, window) then 1 else 0
  }

  /** Calls for `key` in the closed interval that were allowed. */
  function Within(calls: seq<Call>, max: int, window: int, key: string, from: int, to: int): nat {
    if calls == [] then 0
    else
      var last := calls[|calls| - 1];
      Within(calls[..|calls| - 1], max, window, key, from, to)
      + if last.key == key && from <= last.now <= to && Allowed(calls, max, window) then 1 else 0
  }

  /** A window lets one call through even when the maximum is lower than that. */
  function Most(max: int): int {
    if max < 1 then 1 else max
  }

  lemma {:induction false} SinceFalls(calls: seq<Call>, max: int, window: int, key: string, from: int, later: int)
    requires from <= later
    ensures Since(calls, max, window, key, later) <= Since(calls, max, window, key, from)
  {
    if calls != [] {
      SinceFalls(calls[..|calls| - 1], max, window, key, from, later);
    }
  }

  lemma {:induction false} WithinIsSince(calls: seq<Call>, max: int, window: int, key: string, from: int, to: int)
    requires forall i | 0 <= i < |calls| :: calls[i].now <= to
    ensures Within(calls, max, window, key, from, to) == Since(calls, max, window, key, from)
  {
    if calls != [] {
      WithinIsSince(calls[..|calls| - 1], max, window, key, from, to);
    }
  }

  /** What the counter of a key says about the calls let through: it counts those of its own window, and going back
      one more window length adds at most one window's worth. */
  ghost predicate Tells(calls: seq<Call>, max: int, window: int, key: string) {
    var counters := Counters(calls, max, window);
    if key !in counters then
      forall from :: Since(calls, max, window, key, from) == 0
    else
      var c := counters[key];
      && 1 <= c.n <= Most(max)
      && Since(calls, max, window, key, c.resetAt - window) == c.n
      && Since(calls, max, window, key, c.resetAt + 1) == 0
      && forall from | c.resetAt - 2 * window <= from :: Since(calls, max, window, key, from) <= c.n + Most(max)
  }

  lemma OtherKey(calls: seq<Call>, max: int, window: int, key: string)
    requires calls != [] && calls[|calls| - 1].key != key && Tells(calls[..|calls| - 1], max, window, key)
    ensures Tells(calls, max, window, key)
  {
    var before := calls[..|calls| - 1];
    forall from ensures Since(calls, max, window, key, from) == Since(before, max, window, key, from) {
    }
  }

  lemma OwnKey(calls: seq<Call>, max: int, window: int)
    requires calls != [] && window > 0 && Tells(calls[..|calls| - 1], max, window, calls[|calls| - 1].key)
    requires calls[|calls| - 1].key in Counters(calls[..|calls| - 1], max, window) ==>
               Counters(calls[..|calls| - 1], max, window)[calls[|calls| - 1].key].resetAt - window <= calls[|calls| - 1].now
    ensures Tells(calls, max, window, calls[|calls| - 1].key)
  {
    var before, last := calls[..|calls| - 1], calls[|calls| - 1];
    var counters := Counters(before, max, window);
    forall from ensures Since(calls, max, window, last.key, from) ==
      Since(before, max, window, last.key, from) + if from <= last.now && Allowed(calls, max, window) then 1 else 0
    {
    }
    if last.key in counters {
      var c := counters[last.key];
      if last.now > c.resetAt {
        SinceFalls(before, max, window, last.key, c.resetAt + 1, last.now);
        forall from | last.now - window <= from ensures Since(before, max, window, last.key, from) <= Most(max) {
          SinceFalls(before, max, window, last.key, c.resetAt - window, from);
        }
        SinceFalls(before, max, window, last.key, c.resetAt + 1, last.now + window + 1);
      }
    }
  }

  lemma {:induction false} ResetIsRecent(calls: seq<Call>, max: int, window: int, key: string)
    requires window > 0 && key in Counters(calls, max, window)
    ensures exists i | 0 <= i < |calls| :: calls[i].now + window == Counters(calls, max, window)[key].resetAt
  {
    var before, last := calls[..|calls| - 1], calls[|calls| - 1];
    if last.key == key && (key !in Counters(before, max, window) || last.now > Counters(before, max, window)[key].resetAt) {
      assert calls[|calls| - 1].now + window == Counters(calls, max, window)[key].resetAt;
    } else {
      ResetIsRecent(before, max, window, key);
      var i :| 0 <= i < |before| && before[i].now + window == Counters(before, max, window)[key].resetAt;
      assert calls[i].now + window == Counters(calls, max, window)[key].resetAt;
    }
  }

  lemma {:induction false} TellsAlways(calls: seq<Call>, max: int, window: int, key: string)
    requires window > 0 && InOrder(calls)
    ensures Tells(calls, max, window, key)
  {
    if calls != [] {
      var before, last := calls[..|calls| - 1], calls[|calls| - 1];
      TellsAlways(before, max, window, key);
      if last.key == key {
        if key in Counters(before, max, window) {
          ResetIsRecent(before, max, window, key);
          var i :| 0 <= i < |before| && before[i].now + window == Counters(before, max, window)[key].resetAt;
          assert calls[i].now <= last.now;
        }
        OwnKey(calls, max, window);
      } else {
        OtherKey(calls, max, window, key);
      }
    }
  }

  /** In any closed interval of one window length at most twice the maximum gets through for a key. */
  lemma {:induction false} AtMostTwice(calls: seq<Call>, max: int, window: int, key: string, from: int)
    requires window > 0 && InOrder(calls)
    ensures Within(calls, max, window, key, from, from + window) <= 2 * Most(max)
  {
    if calls != [] {
      var before, last := calls[..|calls| - 1], calls[|calls| - 1];
      if last.key == key && from <= last.now <= from + window && Allowed(calls, max, window) {
        forall i | 0 <= i < |calls| ensures calls[i].now <= from + window {
          assert calls[i].now <= calls[|calls| - 1].now;
        }
        WithinIsSince(calls, max, window, key, from, from + window);
        TellsAlways(calls, max, window, key);
        LastWindow(calls, max, window);
      } else {
        AtMostTwice(before, max, window, key, from);
      }
    }
  }

  /** A call is let through whenever fewer than the maximum of its key were in the window before it: the limit is not
      only an upper bound. */
  lemma AllowedWhenFew(calls: seq<Call>, max: int, window: int, key: string, now: int)
    requires window > 0 && InOrder(calls)
    ensures Since(calls, max, window, key, now - window) < max ==> Allowed(calls + [Call(key, now)], max, window)
  {
    assert (calls + [Call(key, now)])[..|calls|] == calls;
    TellsAlways(calls, max, window, key);
    var counters := Counters(calls, max, window);
    if key in counters && now <= counters[key].resetAt {
      SinceFalls(calls, max, window, key, now - window, counters[key].resetAt - window);
    }
  }

  /** An allowed call lies inside the window its counter then shows. */
  lemma LastWindow(calls: seq<Call>, max: int, window: int)
    requires calls != [] && window > 0 && Allowed(calls, max, window)
    ensures calls[|calls| - 1].key in Counters(calls, max, window)
    ensures Counters(calls, max, window)[calls[|calls| - 1].key].resetAt >= calls[|calls| - 1].now
    ensures InOrder(calls) ==>
              Counters(calls, max, window)[calls[|calls| - 1].key].resetAt - 2 * window <= calls[|calls| - 1].now - window
  {
    var before, last := calls[..|calls| - 1], calls[|calls| - 1];
    if last.key in Counters(before, max, window) && InOrder(calls) {
      ResetIsRecent(before, max, window, last.key);
      var i :| 0 <= i < |before| && before[i].now + window == Counters(before, max, window)[last.key].resetAt;
      assert calls[i].now <= last.now;
    }
  }
}
