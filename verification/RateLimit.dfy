/** The sliding-window limiter (backend/app/ratelimit.py). Times are seconds on one monotonic
    clock. */
module RateLimit {
  import opened Options

  datatype Config = Config(maxAttempts: int, window: real, lockout: real)

  /** What the limiter remembers about one key. */
  datatype Key = Key(failures: seq<real>, lockedUntil: Option<real>)

  const FRESH := Key([], None)

  /** The popleft loop. */
  function Prune(ts: seq<real>, cutoff: real): seq<real> {
    if ts == [] || !(ts[0] < cutoff) then ts else Prune(ts[1..], cutoff)
  }

  function Fail(c: Config, k: Key, now: real): Key {
    var attempts := Prune(k.failures + [now], now - c.window);
    if |attempts| >= c.maxAttempts then Key([], Some(now + c.lockout)) else k.(failures := attempts)
  }

  /** retry_after: the wait, and what is left of the key's state. */
  function Check(k: Key, now: real): (r: (int, Key)) {
    if k.lockedUntil.None? then (0, k)
    else
      var remaining := k.lockedUntil.value - now;
      if remaining <= 0.0 then (0, FRESH) else (remaining.Floor + 1, k)
  }

  /** Waiting the announced time is always enough, and never more than a second too long. */
  lemma WaitIsEnough(k: Key, now: real, later: real)
    ensures var wait := Check(k, now).0;
            && wait >= 0
            && (later >= now + wait as real ==> Check(Check(k, now).1, later).0 == 0)
            && (wait > 0 && later < now + (wait - 1) as real ==> Check(k, later).0 > 0)
  {
  }

  // ------------------------------------------------- the limiter itself

  class RateLimiter {
    const config: Config
    var failures: map<string, seq<real>>
    var lockedUntil: map<string, real>

    function KeyOf(key: string): Key
      reads this
    {
      Key(if key in failures then failures[key] else [],
          if key in lockedUntil then Some(lockedUntil[key]) else None)
    }

    constructor (config: Config)
      ensures this.config == config && forall key :: KeyOf(key) == FRESH
    {
      this.config := config;
      failures, lockedUntil := map[], map[];
    }

    method RetryAfter(key: string, now: real) returns (wait: int)
      modifies this
      ensures (wait, KeyOf(key)) == Check(old(KeyOf(key)), now)
      ensures forall other :: other != key ==> KeyOf(other) == old(KeyOf(other))
    {
      if key !in lockedUntil { return 0; }
      var remaining := lockedUntil[key] - now;
      if remaining <= 0.0 {
        lockedUntil := lockedUntil - {key};
        failures := failures - {key};
        return 0;
      }
      return remaining.Floor + 1;
    }

    method RecordFailure(key: string, now: real)
      modifies this
      ensures KeyOf(key) == Fail(config, old(KeyOf(key)), now)
      ensures forall other :: other != key ==> KeyOf(other) == old(KeyOf(other))
    {
      var attempts := KeyOf(key).failures + [now];
      var cutoff := now - config.window;
      while attempts != [] && attempts[0] < cutoff
        invariant Prune(attempts, cutoff) == Prune(old(KeyOf(key)).failures + [now], cutoff)
        decreases |attempts|
      {
        attempts := attempts[1..];
      }
      failures := failures[key := attempts];
      if |attempts| >= config.maxAttempts {
        lockedUntil := lockedUntil[key := now + config.lockout];
        failures := failures[key := []];
      }
    }

    method RecordSuccess(key: string)
      modifies this
      ensures KeyOf(key) == FRESH
      ensures forall other :: other != key ==> KeyOf(other) == old(KeyOf(other))
    {
      failures := failures - {key};
      lockedUntil := lockedUntil - {key};
    }
  }

  // ------------------------------------------------- refinement of counting the whole history

  /** How many of ts are at or after `from`. */
  function CountSince(ts: seq<real>, from: real): nat {
    if ts == [] then 0 else (if ts[0] >= from then 1 else 0) + CountSince(ts[1..], from)
  }

  /** The same rule without forgetting: every failure since the last clear is kept and counted. */
  function NaiveFail(c: Config, k: Key, now: real): Key {
    var all := k.failures + [now];
    if CountSince(all, now - c.window) >= c.maxAttempts then Key([], Some(now + c.lockout))
    else k.(failures := all)
  }

  predicate Sorted(ts: seq<real>) { forall i, j :: 0 <= i < j < |ts| ==> ts[i] <= ts[j] }

  predicate UpTo(ts: seq<real>, last: real) { forall i :: 0 <= i < |ts| ==> ts[i] <= last }

  lemma {:induction false} PruneIsSuffix(ts: seq<real>, cutoff: real) returns (n: nat)
    ensures n <= |ts| && Prune(ts, cutoff) == ts[n..]
    ensures forall i :: 0 <= i < n ==> ts[i] < cutoff
    ensures n < |ts| ==> ts[n] >= cutoff
  {
    if ts == [] || !(ts[0] < cutoff) {
      n := 0;
    } else {
      var m := PruneIsSuffix(ts[1..], cutoff);
      n := m + 1;
      assert ts[1..][m..] == ts[n..];
      assert forall i :: 0 < i < n ==> ts[i] == ts[1..][i - 1];
    }
  }

  lemma {:induction false} CountAll(ts: seq<real>, from: real)
    requires forall i :: 0 <= i < |ts| ==> ts[i] >= from
    ensures CountSince(ts, from) == |ts|
  {
    if ts != [] { CountAll(ts[1..], from); }
  }

  lemma {:induction false} PruneCounts(ts: seq<real>, cutoff: real)
    requires Sorted(ts)
    ensures |Prune(ts, cutoff)| == CountSince(ts, cutoff)
  {
    if ts != [] {
      if ts[0] < cutoff {
        PruneCounts(ts[1..], cutoff);
      } else {
        CountAll(ts, cutoff);
      }
    }
  }

  lemma {:induction false} PruneTwice(ts: seq<real>, c1: real, c2: real, now: real)
    requires c1 <= c2
    ensures Prune(Prune(ts, c1) + [now], c2) == Prune(ts + [now], c2)
  {
    if ts != [] && ts[0] < c1 {
      PruneTwice(ts[1..], c1, c2, now);
      assert (ts + [now])[1..] == ts[1..] + [now];
    }
  }

  datatype Event = Failed(at: real) | Checked(at: real) | Succeeded(at: real)

  function Deque(c: Config, k: Key, e: Event): (int, Key) {
    match e
    case Failed(at) => (0, Fail(c, k, at))
    case Checked(at) => Check(k, at)
    case Succeeded(_) => (0, FRESH)
  }

  function Naive(c: Config, k: Key, e: Event): (int, Key) {
    match e
    case Failed(at) => (0, NaiveFail(c, k, at))
    case Checked(at) => Check(k, at)
    case Succeeded(_) => (0, FRESH)
  }

  function Answers(step: (Config, Key, Event) -> (int, Key), c: Config, k: Key, es: seq<Event>): seq<int>
    decreases |es|
  {
    if es == [] then [] else [step(c, k, es[0]).0] + Answers(step, c, step(c, k, es[0]).1, es[1..])
  }

  predicate InOrder(es: seq<Event>, last: real) {
    es == [] || (last <= es[0].at && InOrder(es[1..], es[0].at))
  }

  /** The deque is the recent end of the history. */
  ghost predicate Refines(c: Config, k: Key, n: Key, last: real) {
    && k.lockedUntil == n.lockedUntil
    && Sorted(n.failures) && UpTo(n.failures, last)
    && exists cutoff :: cutoff <= last - c.window && k.failures == Prune(n.failures, cutoff)
  }

  lemma RefinesFail(c: Config, k: Key, n: Key, last: real, now: real)
    requires Refines(c, k, n, last) && last <= now
    ensures Refines(c, Fail(c, k, now), NaiveFail(c, n, now), now)
  {
    var cutoff :| cutoff <= last - c.window && k.failures == Prune(n.failures, cutoff);
    PruneTwice(n.failures, cutoff, now - c.window, now);
    PruneCounts(n.failures + [now], now - c.window);
    assert Prune([], now - c.window) == [];
  }

  /** On every run, with clears and locks anywhere, the pruned deque answers as the limiter that
      counts the full failure history since the last clear. */
  lemma {:induction false} DequeRefinesHistory(c: Config, k: Key, n: Key, last: real, es: seq<Event>)
    requires Refines(c, k, n, last) && InOrder(es, last)
    ensures Answers(Deque, c, k, es) == Answers(Naive, c, n, es)
    decreases |es|
  {
    if es != [] {
      var e := es[0];
      var k', n' := Deque(c, k, e).1, Naive(c, n, e).1;
      if e.Failed? {
        RefinesFail(c, k, n, last, e.at);
      } else if k'.failures == [] {
        if n'.failures == [] {
          assert Prune(n'.failures, e.at - c.window) == [];
        } else {
          var cutoff :| cutoff <= last - c.window && k.failures == Prune(n.failures, cutoff);
          assert cutoff <= e.at - c.window;
        }
      } else {
        var cutoff :| cutoff <= last - c.window && k.failures == Prune(n.failures, cutoff);
        assert cutoff <= e.at - c.window;
      }
      DequeRefinesHistory(c, k', n', e.at, es[1..]);
    }
  }

  // ------------------------------------------------- the whole-run bound

  /** Check and record done atomically, as for one failing login after another: the recorded
      failure times, oldest first, and the key's state. */
  function Attempt(c: Config, k: Key, now: real): (seq<real>, Key) {
    var (wait, k') := Check(k, now);
    if wait > 0 then ([], k') else ([now], Fail(c, k', now))
  }

  function Recorded(c: Config, k: Key, times: seq<real>): seq<real>
    decreases |times|
  {
    if times == [] then [] else Attempt(c, k, times[0]).0 + Recorded(c, Attempt(c, k, times[0]).1, times[1..])
  }

  function CountIn(ts: seq<real>, from: real, to: real): nat {
    if ts == [] then 0 else (if from <= ts[0] < to then 1 else 0) + CountIn(ts[1..], from, to)
  }

  function Bound(c: Config): nat { if c.maxAttempts > 1 then c.maxAttempts else 1 }

  /** How many of ts lie in [t, t + width). */
  function Within(ts: seq<real>, t: real, width: real): nat { CountIn(ts, t, t + width) }

  ghost predicate InWindows(c: Config, ts: seq<real>) {
    forall t: real :: Within(ts, t, c.window) <= Bound(c)
  }

  lemma {:induction false} CountInConcat(a: seq<real>, b: seq<real>, from: real, to: real)
    ensures CountIn(a + b, from, to) == CountIn(a, from, to) + CountIn(b, from, to)
  {
    if a == [] {
      assert a + b == b;
    } else {
      assert (a + b)[1..] == a[1..] + b;
      CountInConcat(a[1..], b, from, to);
    }
  }

  lemma {:induction false} CountInAtMost(ts: seq<real>, from: real, to: real)
    ensures CountIn(ts, from, to) <= |ts|
  {
    if ts != [] { CountInAtMost(ts[1..], from, to); }
  }

  lemma {:induction false} CountInNone(ts: seq<real>, from: real, to: real)
    requires forall i :: 0 <= i < |ts| ==> !(from <= ts[i] < to)
    ensures CountIn(ts, from, to) == 0
  {
    if ts != [] { CountInNone(ts[1..], from, to); }
  }

  /** fs are the recorded failures from index n on, and those before it are a window older than `at`. */
  predicate Tail(done: seq<real>, n: nat, fs: seq<real>, at: real, window: real) {
    n <= |done| && done[n..] == fs && UpTo(done[..n], at - window)
  }

  /** Everything recorded so far is in the deque or too old to share a window with what comes. */
  ghost predicate Tracked(c: Config, done: seq<real>, k: Key, last: real) {
    && InWindows(c, done)
    && match k.lockedUntil
       case Some(until) => k.failures == [] && UpTo(done, until - c.lockout)
       case None =>
         |k.failures| < Bound(c)
         && exists n: nat :: Tail(done, n, k.failures, last, c.window)
  }

  lemma WindowsAfter(c: Config, done: seq<real>, now: real, older: seq<real>, recent: seq<real>)
    requires InWindows(c, done) && done + [now] == older + recent
    requires UpTo(older, now - c.window) && |recent| <= Bound(c)
    ensures InWindows(c, done + [now])
  {
    forall t: real ensures Within(done + [now], t, c.window) <= Bound(c) {
      if t <= now < t + c.window {
        CountInConcat(older, recent, t, t + c.window);
        CountInNone(older, t, t + c.window);
        CountInAtMost(recent, t, t + c.window);
      } else {
        CountInConcat(done, [now], t, t + c.window);
        CountInNone([now], t, t + c.window);
        assert Within(done, t, c.window) <= Bound(c);
      }
    }
  }

  lemma TailAfter(done: seq<real>, n: nat, fs: seq<real>, now: real, window: real, m: nat)
    requires Tail(done, n, fs, now, window) && m <= |fs| + 1
    requires forall i :: 0 <= i < m ==> (fs + [now])[i] <= now - window
    ensures Tail(done + [now], n + m, (fs + [now])[m..], now, window)
    ensures done + [now] == (done + [now])[..n + m] + (fs + [now])[m..]
  {
    var all, older := fs + [now], (done + [now])[..n + m];
    assert done + [now] == done[..n] + all;
    forall i | 0 <= i < |older| ensures older[i] <= now - window {
      if i < n { assert older[i] == done[..n][i]; } else { assert older[i] == all[i - n]; }
    }
  }

  lemma RecentAfter(c: Config, done: seq<real>, n: nat, fs: seq<real>, now: real) returns (n': nat)
    requires Tail(done, n, fs, now, c.window) && |fs| < Bound(c) && InWindows(c, done)
    ensures Tail(done + [now], n', Prune(fs + [now], now - c.window), now, c.window)
    ensures |Prune(fs + [now], now - c.window)| <= Bound(c)
    ensures InWindows(c, done + [now])
  {
    var m := PruneIsSuffix(fs + [now], now - c.window);
    TailAfter(done, n, fs, now, c.window, m);
    n' := n + m;
    WindowsAfter(c, done, now, (done + [now])[..n'], (fs + [now])[m..]);
  }

  lemma UpToAfter(done: seq<real>, now: real)
    requires UpTo(done, now)
    ensures UpTo(done + [now], now)
  {
  }

  lemma TailIsTracked(c: Config, done: seq<real>, n: nat, fs: seq<real>, now: real)
    requires InWindows(c, done) && Tail(done, n, fs, now, c.window) && UpTo(done, now)
    ensures |fs| < Bound(c) ==> Tracked(c, done, Key(fs, None), now)
    ensures Tracked(c, done, Key([], Some(now + c.lockout)), now)
  {
    assert now + c.lockout - c.lockout == now;
  }

  lemma FailIs(c: Config, k: Key, now: real)
    requires k.lockedUntil.None?
    ensures var left := Prune(k.failures + [now], now - c.window);
            Fail(c, k, now) == (if |left| < c.maxAttempts then Key(left, None) else Key([], Some(now + c.lockout)))
            && (|left| < c.maxAttempts ==> |left| < Bound(c))
  {
  }

  lemma TailOf(c: Config, done: seq<real>, k: Key, last: real) returns (n: nat)
    requires Tracked(c, done, k, last) && k.lockedUntil.None?
    ensures Tail(done, n, k.failures, last, c.window) && |k.failures| < Bound(c) && InWindows(c, done)
  {
    n :| Tail(done, n, k.failures, last, c.window);
  }

  lemma TrackedFail(c: Config, done: seq<real>, k: Key, now: real)
    requires Tracked(c, done, k, now) && k.lockedUntil.None? && UpTo(done, now)
    ensures Tracked(c, done + [now], Fail(c, k, now), now)
  {
    var n := TailOf(c, done, k, now);
    var n' := RecentAfter(c, done, n, k.failures, now);
    UpToAfter(done, now);
    TailIsTracked(c, done + [now], n', Prune(k.failures + [now], now - c.window), now);
    FailIs(c, k, now);
  }

  lemma TrackedLater(c: Config, done: seq<real>, k: Key, last: real, now: real)
    requires c.lockout >= c.window && Tracked(c, done, k, last) && last <= now
    ensures Tracked(c, done, Check(k, now).1, now)
  {
    if k.lockedUntil.None? {
      var n: nat :| Tail(done, n, k.failures, last, c.window);
      assert Tail(done, n, k.failures, now, c.window);
    } else if Check(k, now).0 == 0 {
      assert done[..|done|] == done;
      assert Tail(done, |done|, [], now, c.window);
    }
  }

  lemma AttemptTracked(c: Config, done: seq<real>, k: Key, last: real, now: real)
    requires c.lockout >= c.window && Tracked(c, done, k, last) && UpTo(done, last) && last <= now
    ensures var (new', k') := Attempt(c, k, now); Tracked(c, done + new', k', now) && UpTo(done + new', now)
  {
    TrackedLater(c, done, k, last, now);
    if Check(k, now).0 == 0 {
      TrackedFail(c, done, Check(k, now).1, now);
    } else {
      assert done + [] == done;
    }
  }

  lemma {:induction false} RecordedInWindows(c: Config, done: seq<real>, k: Key, last: real, times: seq<real>)
    requires c.lockout >= c.window
    requires Tracked(c, done, k, last) && UpTo(done, last)
    requires Sorted(times) && forall i :: 0 <= i < |times| ==> last <= times[i]
    ensures InWindows(c, done + Recorded(c, k, times))
    decreases |times|
  {
    if times == [] {
      assert done + [] == done;
    } else {
      var (new', k') := Attempt(c, k, times[0]);
      AttemptTracked(c, done, k, last, times[0]);
      RecordedInWindows(c, done + new', k', times[0], times[1..]);
      assert done + Recorded(c, k, times) == (done + new') + Recorded(c, k', times[1..]);
    }
  }

  /** Exactly when the lockout is at least as long as the window (or the window is empty), no
      half-open interval of one window length ever holds more than max_attempts recorded
      failures (one, when max_attempts is below one), over every run of atomic attempts. */
  lemma BoundHoldsIff(c: Config)
    ensures (forall times: seq<real> :: Sorted(times) ==> InWindows(c, Recorded(c, FRESH, times)))
            <==> c.lockout >= c.window || c.window <= 0.0
  {
    if c.window <= 0.0 {
      forall times: seq<real>, t: real ensures Within(Recorded(c, FRESH, times), t, c.window) == 0 {
        CountInNone(Recorded(c, FRESH, times), t, t + c.window);
      }
    } else if c.lockout >= c.window {
      forall times: seq<real> | Sorted(times) ensures InWindows(c, Recorded(c, FRESH, times)) {
        FreshRunInWindows(c, times);
      }
    } else {
      BurstBreaksBound(c);
    }
  }

  lemma FreshRunInWindows(c: Config, times: seq<real>)
    requires c.lockout >= c.window && Sorted(times)
    ensures InWindows(c, Recorded(c, FRESH, times))
  {
    if times != [] {
      var none: seq<real> := [];
      assert Tail(none, 0, FRESH.failures, times[0], c.window);
      RecordedInWindows(c, [], FRESH, times[0], times);
      assert [] + Recorded(c, FRESH, times) == Recorded(c, FRESH, times);
    }
  }

  function Repeat(t: real, n: nat): (r: seq<real>)
    ensures |r| == n && forall i :: 0 <= i < n ==> r[i] == t
  {
    if n == 0 then [] else [t] + Repeat(t, n - 1)
  }

  /** n more failures at time 0 fill the deque and lock the key; one more comes after the lockout. */
  lemma {:induction false} BurstRecorded(c: Config, have: nat, more: nat, end: real)
    requires 0.0 < c.window && have + more == Bound(c) && more > 0 && end >= 0.0 && end >= c.lockout
    ensures Recorded(c, Key(Repeat(0.0, have), None), Repeat(0.0, more) + [end]) == Repeat(0.0, more) + [end]
    decreases more
  {
    var k, times := Key(Repeat(0.0, have), None), Repeat(0.0, more) + [end];
    var all := Repeat(0.0, have) + [0.0];
    assert Prune(all, 0.0 - c.window) == all;
    assert times[1..] == Repeat(0.0, more - 1) + [end];
    assert all == Repeat(0.0, have + 1) by {
      assert forall i :: 0 <= i < |all| ==> all[i] == 0.0;
    }
    if more == 1 {
      var locked := Key([], Some(0.0 + c.lockout));
      assert Attempt(c, k, 0.0) == ([0.0], locked);
      assert times[1..] == [end];
      assert Recorded(c, locked, [end]) == [end] + Recorded(c, Attempt(c, locked, end).1, []);
    } else {
      assert Attempt(c, k, 0.0) == ([0.0], Key(Repeat(0.0, have + 1), None));
      BurstRecorded(c, have + 1, more - 1, end);
    }
  }

  lemma BurstBreaksBound(c: Config)
    requires 0.0 < c.window && c.lockout < c.window
    ensures exists times: seq<real> :: Sorted(times) && !InWindows(c, Recorded(c, FRESH, times))
  {
    var end := if c.lockout > 0.0 then c.lockout else 0.0;
    var times := Repeat(0.0, Bound(c)) + [end];
    BurstRecorded(c, 0, Bound(c), end);
    CountInAll(times, 0.0, 0.0 + c.window);
    assert Within(times, 0.0, c.window) > Bound(c);
    assert Sorted(times);
  }

  lemma {:induction false} CountInAll(ts: seq<real>, from: real, to: real)
    requires forall i :: 0 <= i < |ts| ==> from <= ts[i] < to
    ensures CountIn(ts, from, to) == |ts|
  {
    if ts != [] { CountInAll(ts[1..], from, to); }
  }
}
