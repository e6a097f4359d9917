/** The fixed-window counter in front of the auth routes. Times are nanoseconds of the monotonic
    clock; the counter is a u32 and wraps. */
module RateLimiter {
  import opened Wrappers

  const WINDOW: nat := 60_000_000_000
  const MAX_REQUESTS: nat := 20
  const U32: nat := 0x1_0000_0000

  datatype Window = Window(startedAt: nat, hits: nat)

  datatype Hit = Hit(key: string, at: nat)

  /** `Instant::duration_since`, which is zero for an earlier instant. */
  function Since(now: nat, earlier: nat): nat {
    if now < earlier then 0 else now - earlier
  }

  /** One request of a key, given the window the key has so far. */
  function Count(window: Option<Window>, now: nat): Window {
    var entry := if window.None? then Window(now, 0) else window.value;
    var current := if Since(now, entry.startedAt) > WINDOW then Window(now, 0) else entry;
    current.(hits := (current.hits + 1) % U32)
  }

  function Lookup(store: map<string, Window>, key: string): Option<Window> {
    if key in store then Some(store[key]) else None
  }

  /** The shared store after a whole trace of requests. */
  function Store(trace: seq<Hit>): map<string, Window> {
    if trace == [] then map[]
    else
      var store := Store(trace[..|trace| - 1]);
      var hit := trace[|trace| - 1];
      store[hit.key := Count(Lookup(store, hit.key), hit.at)]
  }

  /** The global counter: one request finds or makes its entry, resets it when its window is over,
      and counts itself, all under the lock. */
  class Limiter {
    var store: map<string, Window>
    ghost var trace: seq<Hit>

    ghost predicate Valid()
      reads this
    {
      store == Store(trace)
    }

    constructor ()
      ensures Valid() && trace == []
    {
      store := map[];
      trace := [];
    }

    method Check(key: string, now: nat) returns (limited: bool)
      requires Valid()
      modifies this
      ensures Valid() && trace == old(trace) + [Hit(key, now)]
      ensures limited == (Store(trace)[key].hits > MAX_REQUESTS)
    {
      var entry := Window(now, 0);
      if key in store { entry := store[key]; }
      if Since(now, entry.startedAt) > WINDOW {
        entry := entry.(startedAt := now);
        entry := entry.(hits := 0);
      }
      entry := entry.(hits := (entry.hits + 1) % U32);
      store := store[key := entry];
      trace := trace + [Hit(key, now)];
      assert trace[..|trace| - 1] == old(trace);
      limited := entry.hits > MAX_REQUESTS;
    }
  }

  // ---------------------------------------------------------------- one key at a time

  /** The times of one key's own requests. */
  function Times(trace: seq<Hit>, key: string): seq<nat> {
    if trace == [] then []
    else
      var hit := trace[|trace| - 1];
      Times(trace[..|trace| - 1], key) + (if hit.key == key then [hit.at] else [])
  }

  /** The window recomputed from a history of times alone. */
  function Replay(times: seq<nat>): Option<Window> {
    if times == [] then None else Some(Count(Replay(times[..|times| - 1]), times[|times| - 1]))
  }

  /** No key affects another: a key's stored window is the replay of its own requests. */
  lemma {:induction false} KeysAreIndependent(trace: seq<Hit>, key: string)
    ensures Lookup(Store(trace), key) == Replay(Times(trace, key))
  {
    if trace != [] {
      var earlier := trace[..|trace| - 1];
      KeysAreIndependent(earlier, key);
      var times := Times(earlier, key);
      assert (times + [trace[|trace| - 1].at])[..|times|] == times;
      assert times + [] == times;
    }
  }

  /** The index of the request that opened the window of request `i`. */
  function Opener(times: seq<nat>, i: nat): (opener: nat)
    requires i < |times|
    ensures opener <= i
  {
    if i == 0 then 0
    else
      var previous := Opener(times, i - 1);
      if Since(times[i], times[previous]) > WINDOW then i else previous
  }

  ghost predicate Ordered(times: seq<nat>) {
    forall i, j | 0 <= i < j < |times| :: times[i] <= times[j]
  }

  /** After request `i` the window is the opener's, and its counter is the place of `i` in it,
      modulo 2^32. */
  lemma {:induction false} ReplayCounts(times: seq<nat>, i: nat)
    requires i < |times|
    ensures Replay(times[..i + 1]) == Some(Window(times[Opener(times, i)], (i - Opener(times, i) + 1) % U32))
  {
    assert times[..i + 1][..i] == times[..i];
    if i > 0 {
      ReplayCounts(times, i - 1);
      WrapsByOne(i - Opener(times, i - 1));
    }
  }

  lemma WrapsByOne(n: nat)
    ensures (n % U32 + 1) % U32 == (n + 1) % U32
  {
  }

  /** Whether request `i` of a key is let through. */
  predicate Admitted(times: seq<nat>, i: nat)
    requires i < |times|
  {
    Replay(times[..i + 1]).value.hits <= MAX_REQUESTS
  }

  /** The request in place `k` of its window is admitted exactly when k modulo 2^32 is at most 20:
      the first twenty, and nothing else before the counter wraps. */
  lemma AdmittedIff(times: seq<nat>, i: nat)
    requires i < |times|
    ensures Admitted(times, i) <==> (i - Opener(times, i) + 1) % U32 <= MAX_REQUESTS
    ensures i - Opener(times, i) + 1 < U32 ==> (Admitted(times, i) <==> i - Opener(times, i) < MAX_REQUESTS)
  {
    ReplayCounts(times, i);
  }

  /** The answer to the last request of any trace is the one its key's own history gives. */
  lemma DecisionIsOwn(trace: seq<Hit>, key: string, at: nat)
    ensures var all := trace + [Hit(key, at)];
      var times := Times(trace, key) + [at];
      Store(all)[key].hits <= MAX_REQUESTS <==> Admitted(times, |times| - 1)
  {
    var all := trace + [Hit(key, at)];
    assert all[..|all| - 1] == trace;
    KeysAreIndependent(all, key);
    var times := Times(trace, key) + [at];
    assert times[..|times|] == times;
  }

  /** The admitted requests among those from `a` up to `b`. */
  function Passed(times: seq<nat>, a: nat, b: nat): nat
    requires a <= b <= |times|
    decreases b
  {
    if a == b then 0 else Passed(times, a, b - 1) + (if Admitted(times, b - 1) then 1 else 0)
  }

  lemma PassedSplits(times: seq<nat>, a: nat, m: nat, b: nat)
    requires a <= m <= b <= |times|
    ensures Passed(times, a, b) == Passed(times, a, m) + Passed(times, m, b)
    decreases b
  {
    if m < b { PassedSplits(times, a, m, b - 1); }
  }

  /** All requests between the opener of a window and one of its requests belong to it. */
  lemma {:induction false} SameOpener(times: seq<nat>, i: nat, j: nat)
    requires j < |times| && Opener(times, j) <= i <= j
    ensures Opener(times, i) == Opener(times, j)
  {
    if i < j { SameOpener(times, i, j - 1); }
  }

  /** Whether the counter lets the request in place `k` of a window through, counting from 1. */
  predicate PlacePasses(k: nat) {
    k % U32 <= MAX_REQUESTS
  }

  /** How many of the first `n` requests of a window pass. */
  function Quota(n: nat): nat {
    if n == 0 then 0 else Quota(n - 1) + (if PlacePasses(n) then 1 else 0)
  }

  /** Twenty, and twenty-one more each time the counter has wrapped, since it then passes through zero. */
  lemma {:induction false} QuotaClosedForm(n: nat)
    ensures Quota(n) == n / U32 * (MAX_REQUESTS + 1) + (if n % U32 <= MAX_REQUESTS then n % U32 else MAX_REQUESTS)
  {
    if n > 0 {
      QuotaClosedForm(n - 1);
      if n % U32 == 0 {
        assert n / U32 == (n - 1) / U32 + 1 && (n - 1) % U32 == U32 - 1;
      } else {
        assert n / U32 == (n - 1) / U32 && (n - 1) % U32 == n % U32 - 1;
      }
    }
  }

  lemma QuotaIsTwentyIff(n: nat)
    ensures Quota(n) <= MAX_REQUESTS <==> n < U32
  {
    QuotaClosedForm(n);
    if n >= U32 { assert n / U32 >= 1; }
  }

  lemma OneMorePasses(times: seq<nat>, b: nat)
    requires 0 < b <= |times|
    ensures Admitted(times, b - 1) <==> PlacePasses(b - Opener(times, b - 1))
  {
    AdmittedIff(times, b - 1);
  }

  /** The requests from `a` up to `b`, all in the window of the last, pass as the quota says. */
  lemma {:induction false} WindowPassesExactly(times: seq<nat>, a: nat, b: nat)
    requires a < b <= |times| && Opener(times, b - 1) <= a
    ensures var opener := Opener(times, b - 1);
      Quota(a - opener) + Passed(times, a, b) == Quota(b - opener)
    decreases b
  {
    OneMorePasses(times, b);
    if a < b - 1 {
      SameOpener(times, b - 2, b - 1);
      WindowPassesExactly(times, a, b - 1);
    } else {
      assert Passed(times, a, a) == 0;
    }
  }

  /** A window passes at most twenty requests if and only if it holds fewer than 2^32. */
  lemma TwentyPerWindowIff(times: seq<nat>, b: nat)
    requires 0 < b <= |times|
    ensures var opener := Opener(times, b - 1);
      Passed(times, opener, b) <= MAX_REQUESTS <==> b - opener < U32
  {
    var opener := Opener(times, b - 1);
    WindowPassesExactly(times, opener, b);
    QuotaIsTwentyIff(b - opener);
  }

  /** A request that opens a window comes after the window before it is over. */
  lemma OpensAfterWindow(times: seq<nat>, m: nat)
    requires 0 < m < |times| && Opener(times, m) == m
    ensures times[m] - times[Opener(times, m - 1)] > WINDOW
  {
  }

  /** The requests from `a` up to `b`, as the map saw them, lie within sixty seconds of each other. */
  ghost predicate WithinMinute(times: seq<nat>, a: nat, b: nat)
    requires a <= b <= |times|
  {
    forall i, j | a <= i < b && a <= j < b :: Near(times, i, j)
  }

  predicate Near(times: seq<nat>, i: nat, j: nat)
    requires i < |times| && j < |times|
  {
    times[j] - times[i] <= WINDOW
  }

  /** When the instants are in order, the first and the last decide. */
  lemma OrderedMinute(times: seq<nat>, a: nat, b: nat)
    requires Ordered(times) && a < b <= |times| && times[b - 1] - times[a] <= WINDOW
    ensures WithinMinute(times, a, b)
  {
    forall i, j | a <= i < b && a <= j < b
      ensures Near(times, i, j)
    {
      assert times[a] <= times[i] && times[j] <= times[b - 1];
    }
  }

  /** A window that opens inside the stretch leaves room for only one window before it. */
  lemma OneWindowBefore(times: seq<nat>, a: nat, b: nat)
    requires a < b <= |times| && WithinMinute(times, a, b) && a < Opener(times, b - 1)
    ensures Opener(times, Opener(times, b - 1) - 1) == Opener(times, a) <= a
  {
    var m := Opener(times, b - 1);
    SameOpener(times, m, b - 1);
    OpensAfterWindow(times, m);
    OpenerIsBefore(times, a, m, b);
    SameOpener(times, a, m - 1);
  }

  lemma OpenerIsBefore(times: seq<nat>, a: nat, m: nat, b: nat)
    requires a < m < b <= |times| && WithinMinute(times, a, b)
    requires times[m] - times[Opener(times, m - 1)] > WINDOW
    ensures Opener(times, m - 1) <= a
  {
    assert !Near(times, Opener(times, m - 1), m);
  }

  /** What the quotas of the one or two windows that a minute meets allow it. */
  function Allowed(times: seq<nat>, a: nat, b: nat): int
    requires a < b <= |times|
  {
    var last := Opener(times, b - 1);
    if last <= a then Quota(b - last) - Quota(a - last)
    else
      var first := Opener(times, a);
      Quota(last - first) - Quota(a - first) + Quota(b - last)
  }

  lemma TwoWindowsPassExactly(times: seq<nat>, a: nat, m: nat, b: nat)
    requires a < m < b <= |times| && Opener(times, b - 1) == m && Opener(times, m - 1) <= a
    ensures var first := Opener(times, m - 1);
      Passed(times, a, b) == Quota(m - first) - Quota(a - first) + Quota(b - m)
  {
    PassedSplits(times, a, m, b);
    WindowPassesExactly(times, a, m);
    WindowPassesExactly(times, m, b);
  }

  lemma MinuteInTwoWindows(times: seq<nat>, a: nat, b: nat)
    requires a < b <= |times| && WithinMinute(times, a, b) && a < Opener(times, b - 1)
    ensures Passed(times, a, b) == Allowed(times, a, b)
  {
    OneWindowBefore(times, a, b);
    TwoWindowsPassExactly(times, a, Opener(times, b - 1), b);
  }

  lemma MinuteInOneWindow(times: seq<nat>, a: nat, b: nat)
    requires a < b <= |times| && Opener(times, b - 1) <= a
    ensures Passed(times, a, b) == Allowed(times, a, b)
  {
    WindowPassesExactly(times, a, b);
  }

  /** Of any stretch of one key's requests that lies within sixty seconds, exactly as many pass as
      these quotas say, since it meets at most two windows. The instants need not be in order. */
  lemma MinutePassesExactly(times: seq<nat>, a: nat, b: nat)
    requires a < b <= |times| && WithinMinute(times, a, b)
    ensures Passed(times, a, b) == Allowed(times, a, b)
  {
    if Opener(times, b - 1) <= a { MinuteInOneWindow(times, a, b); } else { MinuteInTwoWindows(times, a, b); }
  }

  /** That is at most forty, unless one of the windows holds 2^32 requests or more. */
  lemma FortyPerMinute(times: seq<nat>, a: nat, b: nat)
    requires a < b <= |times| && WithinMinute(times, a, b)
    ensures var last := Opener(times, b - 1);
      || Passed(times, a, b) <= 2 * MAX_REQUESTS
      || b - last >= U32
      || (last > a && last - Opener(times, a) >= U32)
  {
    var last := Opener(times, b - 1);
    MinutePassesExactly(times, a, b);
    QuotaIsTwentyIff(b - last);
    if last > a { QuotaIsTwentyIff(last - Opener(times, a)); }
  }

  /** In a trace whose instants are in order, such a stretch is every sixty-second interval. */
  lemma FortyPerOrderedMinute(times: seq<nat>, a: nat, b: nat)
    requires Ordered(times) && a < b <= |times| && times[b - 1] - times[a] <= WINDOW
    ensures var last := Opener(times, b - 1);
      || Passed(times, a, b) <= 2 * MAX_REQUESTS
      || b - last >= U32
      || (last > a && last - Opener(times, a) >= U32)
  {
    OrderedMinute(times, a, b);
    FortyPerMinute(times, a, b);
  }

  // ---------------------------------------------------------------- the limits in numbers

  /** A key's first request opens a window, and later ones exactly when they come more than sixty seconds
      after the one that opened the last. */
  lemma SixtySeconds(times: seq<nat>, i: nat)
    requires i < |times|
    ensures Opener(times, i)
      == if i == 0 || times[i] > times[Opener(times, i - 1)] + 60_000_000_000 then i else Opener(times, i - 1)
  {
  }

  /** The answer that a request gets from the shared store: the first twenty of its window are let
      through, the twenty-first and all further ones are not, while the counter has not wrapped. */
  lemma TwentyOfAWindow(trace: seq<Hit>, key: string, at: nat)
    ensures var all := trace + [Hit(key, at)];
      var times := Times(trace, key) + [at];
      var place := |times| - Opener(times, |times| - 1);
      && key in Store(all) && |times| > 0
      && (place < 4_294_967_296 ==> (Store(all)[key].hits <= 20 <==> place <= 20))
  {
    var all := trace + [Hit(key, at)];
    var times := Times(trace, key) + [at];
    assert all[..|trace|] == trace;
    DecisionIsOwn(trace, key, at);
    AdmittedIff(times, |times| - 1);
  }

  /** Of a key's requests within sixty seconds at most forty pass, unless a window holds 2^32 of them. */
  lemma FortyInNumbers(times: seq<nat>, a: nat, b: nat)
    requires a < b <= |times|
    requires forall i, j | a <= i < b && a <= j < b :: times[j] <= times[i] + 60_000_000_000
    ensures var last := Opener(times, b - 1);
      || Passed(times, a, b) <= 40
      || b - last >= 4_294_967_296
      || (last > a && last - Opener(times, a) >= 4_294_967_296)
  {
    forall i, j | a <= i < b && a <= j < b
      ensures Near(times, i, j)
    {
      assert times[j] <= times[i] + 60_000_000_000;
    }
    FortyPerMinute(times, a, b);
  }
}
