/** One request per host per interval (app/fetch/limits.py). */
module Throttle {
  import opened Text

  function Max(a: real, b: real): real {
    if a < b then b else a
  }

  function Interval(configured: real, asked: Option<real>): real {
    Max(configured, if asked.Some? then asked.value else 0.0)
  }

  function Earliest(nextAllowed: map<string, real>, host: string): real {
    if host in nextAllowed then nextAllowed[host] else 0.0
  }

  /**
   * A caller inside the host's lock: it reads the clock at `now`, and again at `woke` once it is let go.
   * The lock and the sleep are the event loop's; what they promise is `Behaves`.
   */
  datatype Call = Call(host: string, asked: Option<real>, now: real, woke: real)

  /** Sleeping lasts at least as long as asked, and a clock read later is no earlier. */
  predicate Behaves(nextAllowed: map<string, real>, call: Call) {
    call.woke >= call.now + Max(0.0, Earliest(nextAllowed, call.host) - call.now)
  }

  function AfterCall(nextAllowed: map<string, real>, configured: real, call: Call): map<string, real> {
    var interval := Interval(configured, call.asked);
    if interval <= 0.0 then nextAllowed else nextAllowed[call.host := call.woke + interval]
  }

  class DomainThrottle {
    const minInterval: real
    var nextAllowed: map<string, real>

    constructor (minInterval: real)
      ensures this.minInterval == minInterval && nextAllowed == map[]
    {
      this.minInterval, nextAllowed := minInterval, map[];
    }

    /** Returns how long the caller was held back; the next caller of this host is held until the interval is over. */
    method Wait(call: Call) returns (delay: real)
      requires Behaves(nextAllowed, call)
      modifies this
      ensures nextAllowed == AfterCall(old(nextAllowed), minInterval, call)
      ensures var asked := if call.asked.Some? then call.asked.value else 0.0;
        if minInterval <= 0.0 && asked <= 0.0 then delay == 0.0 && nextAllowed == old(nextAllowed)
        else
          delay >= 0.0 && call.woke >= call.now + delay &&
          delay == (if call.host in old(nextAllowed) && call.now < old(nextAllowed)[call.host]
                    then old(nextAllowed)[call.host] - call.now
                    else if call.host !in old(nextAllowed) && call.now < 0.0 then -call.now else 0.0) &&
          nextAllowed == old(nextAllowed)[call.host :=
            if minInterval < asked then call.woke + asked else call.woke + minInterval]
    {
      var interval := Interval(minInterval, call.asked);
      if interval <= 0.0 {
        return 0.0;
      }
      var earliest := Earliest(nextAllowed, call.host);
      delay := Max(0.0, earliest - call.now);
      nextAllowed := nextAllowed[call.host := call.woke + interval];
    }
  }

  // ---- any number of callers, of any hosts, interleaved ----

  function AfterCalls(configured: real, calls: seq<Call>): map<string, real> {
    if calls == [] then map[]
    else AfterCall(AfterCalls(configured, calls[..|calls| - 1]), configured, calls[|calls| - 1])
  }

  ghost predicate AllBehave(configured: real, calls: seq<Call>) {
    forall k :: 0 <= k < |calls| ==> Behaves(AfterCalls(configured, calls[..k]), calls[k])
  }

  /** The releases of one host, in the order its lock was taken. */
  function Releases(calls: seq<Call>, host: string): seq<Call> {
    if calls == [] then []
    else
      var rest := Releases(calls[..|calls| - 1], host);
      if calls[|calls| - 1].host == host then rest + [calls[|calls| - 1]] else rest
  }

  /** Each release waits out the interval of the one before it. */
  ghost predicate Spaced(configured: real, releases: seq<Call>) {
    forall i :: 0 < i < |releases| ==> releases[i].woke >= FreeAt(configured, releases[i - 1])
  }

  /** When the host becomes free again after this call. */
  function FreeAt(configured: real, call: Call): real {
    call.woke + Interval(configured, call.asked)
  }

  lemma PositiveInterval(configured: real, call: Call)
    requires configured > 0.0
    ensures Interval(configured, call.asked) >= configured
  {
  }

  lemma SpacedSnoc(configured: real, releases: seq<Call>, last: Call)
    requires Spaced(configured, releases)
    requires releases != [] ==> last.woke >= FreeAt(configured, releases[|releases| - 1])
    ensures Spaced(configured, releases + [last])
  {
    hide FreeAt;
  }

  lemma {:induction false} ReleasesAreSpaced(configured: real, calls: seq<Call>, host: string)
    requires configured > 0.0 && AllBehave(configured, calls)
    ensures var r := Releases(calls, host);
      Spaced(configured, r) &&
      (r != [] ==> Earliest(AfterCalls(configured, calls), host) == FreeAt(configured, r[|r| - 1]))
  {
    hide Interval, Spaced, Behaves;
    if calls == [] {
      assert Spaced(configured, []) by { NothingIsSpaced(configured); }
    }
    if calls != [] {
      var init, last := calls[..|calls| - 1], calls[|calls| - 1];
      forall k | 0 <= k < |init| ensures Behaves(AfterCalls(configured, init[..k]), init[k]) {
        assert init[..k] == calls[..k];
      }
      ReleasesAreSpaced(configured, init, host);
      assert Behaves(AfterCalls(configured, calls[..|init|]), calls[|init|]);
      PositiveInterval(configured, last);
      ReleasedAfter(AfterCalls(configured, init), last);
      if last.host == host {
        SpacedSnoc(configured, Releases(init, host), last);
      }
    }
  }

  /**
   * Between two releases of one host lies the configured interval, and also the one that the earlier caller
   * asked for.
   */
  lemma EarlierCallerIsWaitedOut(configured: real, calls: seq<Call>, host: string, i: nat)
    requires configured > 0.0 && AllBehave(configured, calls) && 0 < i < |Releases(calls, host)|
    ensures var r, s := Releases(calls, host)[i - 1], Releases(calls, host)[i];
      s.woke >= r.woke + configured && (forall d :: r.asked == Some(d) ==> s.woke >= r.woke + d)
  {
    hide Releases, AllBehave, AfterCalls;
    ReleasesAreSpaced(configured, calls, host);
    assert Releases(calls, host)[i].woke >= FreeAt(configured, Releases(calls, host)[i - 1]);
  }

  lemma NothingIsSpaced(configured: real)
    ensures Spaced(configured, [])
  {
  }

  lemma ReleasedAfter(nextAllowed: map<string, real>, call: Call)
    requires Behaves(nextAllowed, call)
    ensures call.woke >= Earliest(nextAllowed, call.host)
  {
  }

  lemma {:induction false} SpacedAdds(configured: real, releases: seq<Call>, i: nat, j: nat)
    requires configured > 0.0 && Spaced(configured, releases) && i <= j < |releases|
    ensures releases[j].woke - releases[i].woke >= (j - i) as real * configured
    decreases j - i
  {
    if i < j {
      SpacedAdds(configured, releases, i, j - 1);
      PositiveInterval(configured, releases[j - 1]);
      assert (j - i) as real * configured == (j - 1 - i) as real * configured + configured;
    }
  }

  /** Releases i..j of a host lie within a window of this length. */
  predicate Within(releases: seq<Call>, i: nat, j: nat, window: real)
    requires i <= j < |releases|
  {
    releases[j].woke - releases[i].woke <= window
  }

  /**
   * A window of length T sees at most floor(T / m) + 1 releases of one host, however many callers compete,
   * where m is the configured minimum interval.
   */
  lemma {:induction false} WindowBound(configured: real, calls: seq<Call>, host: string, i: nat, j: nat, window: real)
    requires configured > 0.0 && AllBehave(configured, calls)
    requires i <= j < |Releases(calls, host)| && Within(Releases(calls, host), i, j, window)
    ensures j - i + 1 <= (window / configured).Floor + 1
  {
    hide Releases, Spaced, AllBehave;
    var r := Releases(calls, host);
    ReleasesAreSpaced(configured, calls, host);
    SpacedAdds(configured, r, i, j);
    DivideBound(j - i, configured, window);
  }

  lemma DivideBound(n: nat, m: real, t: real)
    requires m > 0.0 && n as real * m <= t
    ensures n <= (t / m).Floor
  {
    QuotientBound(n as real, m, t);
  }

  lemma QuotientBound(x: real, m: real, t: real)
    requires m > 0.0 && x * m <= t
    ensures x <= t / m
  {
    assert (t / m) * m == t;
  }
}
