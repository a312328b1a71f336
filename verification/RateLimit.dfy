/** The in-memory sliding-window limiter with its background cleanup (`RateLimiter`). */
module RateLimit {

  type Key = string
  type Windows = map<Key, seq<real>>

  /** A limiter's bounds; at least one request is allowed per window. */
  datatype Limits = Limits(maxRequests: int, seconds: int)

  predicate Usable(l: Limits) {
    l.maxRequests >= 1 && l.seconds > 0
  }

  datatype Answer = Answer(allowed: bool, retryAfter: int)

  function Window(ws: Windows, key: Key): seq<real> {
    if key in ws then ws[key] else []
  }

  /** The deque once every leading timestamp at or before the cutoff is popped. */
  function Evict(window: seq<real>, cutoff: real): seq<real> {
    if window != [] && window[0] <= cutoff then Evict(window[1..], cutoff) else window
  }

  /** The answer and the key's deque after one check. */
  function Decide(l: Limits, window: seq<real>, now: real): (Answer, seq<real>)
    requires Usable(l)
  {
    var live := Evict(window, now - l.seconds as real);
    if |live| >= l.maxRequests
    then (Answer(false, (l.seconds as real - (now - live[0])).Floor + 1), live)
    else (Answer(true, 0), live + [now])
  }

  /** The windows a cleanup keeps: those whose newest timestamp is still inside the window. */
  function Swept(l: Limits, ws: Windows, now: real): Windows {
    map k | k in ws && ws[k] != [] && ws[k][|ws[k]| - 1] > now - l.seconds as real :: ws[k]
  }

  class RateLimiter {
    const limits: Limits
    var windows: Windows

    constructor (maxRequests: int, seconds: int)
      requires maxRequests >= 1 && seconds > 0
      ensures Usable(limits) && limits == Limits(maxRequests, seconds) && windows == map[]
    {
      limits := Limits(maxRequests, seconds);
      windows := map[];
    }

    /** `check`, the part under the lock. */
    method Check(key: Key, now: real) returns (answer: Answer)
      requires Usable(limits)
      modifies this
      ensures (answer, windows) == (Decide(limits, Window(old(windows), key), now).0,
                                    old(windows)[key := Decide(limits, Window(old(windows), key), now).1])
    {
      var window := Window(windows, key);
      var cutoff := now - limits.seconds as real;
      while window != [] && window[0] <= cutoff
        invariant Evict(window, cutoff) == Evict(Window(old(windows), key), cutoff)
      {
        window := window[1..];
      }
      if |window| >= limits.maxRequests {
        answer := Answer(false, (limits.seconds as real - (now - window[0])).Floor + 1);
      } else {
        window := window + [now];
        answer := Answer(true, 0);
      }
      windows := windows[key := window];
    }

    /** One pass of `_run_cleanup`. */
    method Cleanup(now: real)
      modifies this
      ensures windows == Swept(limits, old(windows), now)
    {
      var cutoff := now - limits.seconds as real;
      var stale := set k | k in windows && (windows[k] == [] || windows[k][|windows[k]| - 1] <= cutoff);
      windows := windows - stale;
    }
  }

  // ---------------------------------------------------------------- runs

  datatype Event = Check(key: Key, now: real) | Cleanup(now: real)

  ghost predicate TimesRise(es: seq<Event>) {
    forall i, j :: 0 <= i <= j < |es| ==> es[i].now <= es[j].now
  }

  function Next(l: Limits, ws: Windows, e: Event): Windows
    requires Usable(l)
  {
    match e
    case Check(k, t) => ws[k := Decide(l, Window(ws, k), t).1]
    case Cleanup(t) => Swept(l, ws, t)
  }

  function After(l: Limits, es: seq<Event>): Windows
    requires Usable(l)
  {
    if es == [] then map[] else Next(l, After(l, es[..|es| - 1]), es[|es| - 1])
  }

  function Answered(l: Limits, es: seq<Event>): seq<Answer>
    requires Usable(l)
  {
    if es == [] then []
    else
      var p := es[..|es| - 1];
      match es[|es| - 1]
      case Check(k, t) => Answered(l, p) + [Decide(l, Window(After(l, p), k), t).0]
      case Cleanup(_) => Answered(l, p)
  }

  /** The times of the key's allowed checks, in order. */
  function Allowed(l: Limits, es: seq<Event>, key: Key): seq<real>
    requires Usable(l)
  {
    if es == [] then []
    else
      var p := es[..|es| - 1];
      match es[|es| - 1]
      case Check(k, t) =>
        if k == key && Decide(l, Window(After(l, p), k), t).0.allowed then Allowed(l, p, key) + [t]
            else Allowed(l, p, key)
      case Cleanup(_) => Allowed(l, p, key)
  }

  /** How many of the times fall in [from, from + seconds). */
  function CountIn(times: seq<real>, from: real, seconds: int): nat {
    if times == [] then 0
    else CountIn(times[..|times| - 1], from, seconds)
         + var t := times[|times| - 1]; if from <= t < from + seconds as real then 1 else 0
  }

  ghost predicate Rising(s: seq<real>) {
    forall i, j :: 0 <= i <= j < |s| ==> s[i] <= s[j]
  }

  /** `all` is `gone + live`, everything gone being out of every window that reaches `now`. */
  ghost predicate Kept(l: Limits, all: seq<real>, live: seq<real>, now: real) {
    && |live| <= |all| && live == all[|all| - |live|..]
    && Rising(all) && (all != [] ==> all[|all| - 1] <= now)
    && (forall i :: 0 <= i < |all| - |live| ==> all[i] <= now - l.seconds as real)
    && |live| <= l.maxRequests
  }

  lemma {:induction false} EvictDrops(window: seq<real>, cutoff: real) returns (n: nat)
    ensures n <= |window| && Evict(window, cutoff) == window[n..]
    ensures forall i :: 0 <= i < n ==> window[i] <= cutoff
    ensures n < |window| ==> cutoff < window[n]
  {
    if window != [] && window[0] <= cutoff {
      var m := EvictDrops(window[1..], cutoff);
      n := m + 1;
      assert window[1..][m..] == window[n..];
    } else {
      n := 0;
    }
  }

  lemma KeptLater(l: Limits, all: seq<real>, live: seq<real>, was: real, now: real)
    requires Kept(l, all, live, was) && was <= now
    ensures Kept(l, all, live, now)
  {}

  lemma EvictKeeps(l: Limits, all: seq<real>, window: seq<real>, now: real)
    requires Kept(l, all, window, now)
    ensures var live := Evict(window, now - l.seconds as real);
            Kept(l, all, live, now) && (live != [] ==> now - l.seconds as real < live[0] <= now)
  {
    var n := EvictDrops(window, now - l.seconds as real);
    var live := window[n..];
    var gone := |all| - |window|;
    assert live == all[gone + n..];
    forall i | 0 <= i < gone + n ensures all[i] <= now - l.seconds as real {
      if i >= gone { assert window[i - gone] == all[i]; }
    }
    if live != [] { assert live[0] == all[gone + n]; }
  }

  lemma AppendKeeps(l: Limits, all: seq<real>, live: seq<real>, now: real)
    requires Kept(l, all, live, now) && |live| < l.maxRequests
    ensures Kept(l, all + [now], live + [now], now)
  {
    assert live + [now] == (all + [now])[|all| - |live|..];
    forall i, j | 0 <= i <= j < |all| + 1 ensures (all + [now])[i] <= (all + [now])[j] {
      if i < |all| { assert all[i] <= all[|all| - 1]; }
    }
  }

  lemma DecideKeeps(l: Limits, all: seq<real>, window: seq<real>, now: real)
    requires Usable(l) && Kept(l, all, window, now)
    ensures var (answer, live) := Decide(l, window, now);
            Kept(l, if answer.allowed then all + [now] else all, live, now)
  {
    hide Kept, Evict;
    var live := Evict(window, now - l.seconds as real);
    EvictKeeps(l, all, window, now);
    if |live| < l.maxRequests { AppendKeeps(l, all, live, now); }
  }

  lemma SweepKeeps(l: Limits, all: seq<real>, ws: Windows, key: Key, now: real)
    requires Usable(l) && Kept(l, all, Window(ws, key), now)
    ensures Kept(l, all, Window(Swept(l, ws, now), key), now)
  {
    var window := Window(ws, key);
    if Window(Swept(l, ws, now), key) != window {
      assert window[|window| - 1] == all[|all| - 1];
    }
  }

  lemma RisingPrefix(es: seq<Event>)
    requires TimesRise(es) && es != []
    ensures TimesRise(es[..|es| - 1])
    ensures |es| > 1 ==> es[..|es| - 1][|es| - 2].now <= es[|es| - 1].now
  {}

  /** Every deque holds the newest allowed times of its key, and misses none still in the window. */
  lemma {:induction false} RunKeeps(l: Limits, es: seq<Event>, key: Key, now: real)
    requires Usable(l) && TimesRise(es) && (es != [] ==> es[|es| - 1].now <= now)
    ensures Kept(l, Allowed(l, es, key), Window(After(l, es), key), now)
  {
    if es != [] {
      hide Kept, TimesRise, Decide, Swept;
      var p, e := es[..|es| - 1], es[|es| - 1];
      RisingPrefix(es);
      RunKeeps(l, p, key, e.now);
      match e {
        case Check(k, _) =>
          if k == key { DecideKeeps(l, Allowed(l, p, key), Window(After(l, p), key), e.now); }
        case Cleanup(_) =>
          SweepKeeps(l, Allowed(l, p, key), After(l, p), key, e.now);
      }
      KeptLater(l, Allowed(l, es, key), Window(After(l, es), key), e.now, now);
    } else {
      NothingKept(l, now);
    }
  }

  lemma NothingKept(l: Limits, now: real)
    requires Usable(l)
    ensures Kept(l, [], [], now)
  {}

  /** No half-open window of the limiter's length ever holds more allowed checks of a key than the limit. */
  lemma {:induction false} WindowNeverOverfull(l: Limits, es: seq<Event>, key: Key, from: real)
    requires Usable(l) && TimesRise(es)
    ensures CountIn(Allowed(l, es, key), from, l.seconds) <= l.maxRequests
  {
    if es != [] {
      hide TimesRise, CountIn, After, Kept;
      var p, e := es[..|es| - 1], es[|es| - 1];
      RisingPrefix(es);
      WindowNeverOverfull(l, p, key, from);
      if Allowed(l, es, key) != Allowed(l, p, key) {
        RunKeeps(l, es, key, e.now);
        NewestCounted(l, Allowed(l, p, key), e.now, Window(After(l, es), key), from);
      }
    }
  }

  lemma NewestCounted(l: Limits, times: seq<real>, now: real, live: seq<real>, from: real)
    requires Kept(l, times + [now], live, now) && CountIn(times, from, l.seconds) <= l.maxRequests
    ensures CountIn(times + [now], from, l.seconds) <= l.maxRequests
  {
    var all := times + [now];
    assert all[..|all| - 1] == times;
    if from <= now < from + l.seconds as real { CountAtMostLive(all, |all| - |live|, from, l.seconds); }
  }

  lemma {:induction false} CountAtMostLive(times: seq<real>, gone: nat, from: real, seconds: int)
    requires gone <= |times| && forall i :: 0 <= i < gone ==> times[i] < from
    ensures CountIn(times, from, seconds) <= |times| - gone
  {
    if times != [] { CountAtMostLive(times[..|times| - 1], if gone < |times| then gone else gone - 1, from, seconds); }
  }

  // ---------------------------------------------------------------- cleanup is invisible

  function ChecksOnly(es: seq<Event>): seq<Event> {
    if es == [] then []
    else ChecksOnly(es[..|es| - 1]) + if es[|es| - 1].Check? then [es[|es| - 1]] else []
  }

  /** The two deques decide alike at any cutoff from `cutoff` on. */
  ghost predicate SameFrom(a: seq<real>, b: seq<real>, cutoff: real) {
    forall c :: c >= cutoff ==> Evict(a, c) == Evict(b, c)
  }

  lemma {:induction false} EvictAll(a: seq<real>, c: real)
    requires Rising(a) && (a != [] ==> a[|a| - 1] <= c)
    ensures Evict(a, c) == []
  {
    if a != [] { EvictAll(a[1..], c); }
  }

  lemma DecideAlike(l: Limits, a: seq<real>, b: seq<real>, now: real)
    requires Usable(l) && SameFrom(a, b, now - l.seconds as real)
    ensures Decide(l, a, now).0 == Decide(l, b, now).0
    ensures SameFrom(Decide(l, a, now).1, Decide(l, b, now).1, now - l.seconds as real)
  {
    assert Evict(a, now - l.seconds as real) == Evict(b, now - l.seconds as real);
  }

  lemma SweptAlike(l: Limits, ws: Windows, key: Key, now: real)
    requires Rising(Window(ws, key))
    ensures SameFrom(Window(Swept(l, ws, now), key), Window(ws, key), now - l.seconds as real)
  {
    if Window(Swept(l, ws, now), key) != Window(ws, key) {
      forall c | c >= now - l.seconds as real ensures Evict(Window(ws, key), c) == [] { EvictAll(Window(ws, key), c); }
    }
  }

  lemma SameLater(a: seq<real>, b: seq<real>, c: real, d: real)
    requires SameFrom(a, b, c) && c <= d
    ensures SameFrom(a, b, d)
  {}

  lemma SameTrans(a: seq<real>, b: seq<real>, x: seq<real>, c: real)
    requires SameFrom(a, b, c) && SameFrom(b, x, c)
    ensures SameFrom(a, x, c)
  {
    forall d | d >= c ensures Evict(a, d) == Evict(x, d) { assert Evict(a, d) == Evict(b, d); }
  }

  lemma ChecksOnlyLast(p: seq<Event>, e: Event)
    ensures ChecksOnly(p + [e]) == if e.Check? then ChecksOnly(p) + [e] else ChecksOnly(p)
  {
    assert (p + [e])[..|p|] == p;
  }

  lemma AfterLast(l: Limits, p: seq<Event>, e: Event)
    requires Usable(l)
    ensures After(l, p + [e]) == Next(l, After(l, p), e)
    ensures Answered(l, p + [e]) == if e.Check? then Answered(l, p) + [Decide(l, Window(After(l, p), e.key), e.now).0]
                                    else Answered(l, p)
  {
    assert (p + [e])[..|p|] == p;
  }

  /** With and without the cleanups, the key's deques agree on what is in the window that ends at `at`. */
  ghost predicate Agree(l: Limits, es: seq<Event>, key: Key, at: real)
    requires Usable(l)
  {
    SameFrom(Window(After(l, es), key), Window(After(l, ChecksOnly(es)), key), at - l.seconds as real)
  }

  lemma AgreeNext(l: Limits, p: seq<Event>, e: Event, key: Key)
    requires Usable(l) && Agree(l, p, key, e.now) && Rising(Window(After(l, p), key))
    ensures Agree(l, p + [e], key, e.now)
  {
    hide SameFrom, Next, After, ChecksOnly, Window, Rising, Answered, Decide;
    AfterLast(l, p, e);
    ChecksOnlyLast(p, e);
    AfterLast(l, ChecksOnly(p), e);
    StepKeepsState(l, After(l, p), After(l, ChecksOnly(p)), e, key);
  }

  lemma AgreeLater(l: Limits, es: seq<Event>, key: Key, at: real, later: real)
    requires Usable(l) && Agree(l, es, key, at) && at <= later
    ensures Agree(l, es, key, later)
  {
    hide SameFrom, After, ChecksOnly, Window;
    SameLater(Window(After(l, es), key), Window(After(l, ChecksOnly(es)), key), at - l.seconds as real,
              later - l.seconds as real);
  }

  lemma AgreeNothing(l: Limits, key: Key, at: real)
    requires Usable(l)
    ensures Agree(l, [], key, at)
  {}

  lemma AfterRises(l: Limits, es: seq<Event>, key: Key, now: real)
    requires Usable(l) && TimesRise(es) && (es != [] ==> es[|es| - 1].now <= now)
    ensures Rising(Window(After(l, es), key))
  {
    hide TimesRise, After, Window, Rising, Kept, Allowed;
    RunKeeps(l, es, key, now);
    KeptRises(l, Allowed(l, es, key), Window(After(l, es), key), now);
  }

  lemma {:induction false} CleanupKeepsState(l: Limits, es: seq<Event>, key: Key, now: real)
    requires Usable(l) && TimesRise(es) && (es != [] ==> es[|es| - 1].now <= now)
    ensures Agree(l, es, key, now)
  {
    hide Agree, TimesRise, After, Window, Rising;
    if es == [] {
      AgreeNothing(l, key, now);
    } else {
      var p, e := es[..|es| - 1], es[|es| - 1];
      RisingPrefix(es);
      CleanupKeepsState(l, p, key, e.now);
      AfterRises(l, p, key, e.now);
      AgreeNext(l, p, e, key);
      assert es == p + [e];
      AgreeLater(l, es, key, e.now, now);
    }
  }

  lemma StepKeepsState(l: Limits, a: Windows, b: Windows, e: Event, key: Key)
    requires Usable(l) && Rising(Window(a, key))
    requires SameFrom(Window(a, key), Window(b, key), e.now - l.seconds as real)
    ensures SameFrom(Window(Next(l, a, e), key), Window(if e.Check? then Next(l, b, e) else b, key),
                     e.now - l.seconds as real)
  {
    hide SameFrom, Decide, Swept;
    if e.Check? {
      if e.key == key { DecideAlike(l, Window(a, key), Window(b, key), e.now); }
    } else {
      SweptAlike(l, a, key, e.now);
      SameTrans(Window(Next(l, a, e), key), Window(a, key), Window(b, key), e.now - l.seconds as real);
    }
  }

  lemma KeptRises(l: Limits, all: seq<real>, live: seq<real>, now: real)
    requires Kept(l, all, live, now)
    ensures Rising(live)
  {}

  /** Running cleanup at any moments changes no answer. */
  lemma {:induction false} CleanupInvisible(l: Limits, es: seq<Event>)
    requires Usable(l) && TimesRise(es)
    ensures Answered(l, es) == Answered(l, ChecksOnly(es))
  {
    if es != [] {
      hide TimesRise, Decide, Swept, After, ChecksOnly, Answered;
      var p, e := es[..|es| - 1], es[|es| - 1];
      RisingPrefix(es);
      CleanupInvisible(l, p);
      assert es == p + [e];
      AfterLast(l, p, e);
      ChecksOnlyLast(p, e);
      if e.Check? {
        AfterLast(l, ChecksOnly(p), e);
        CleanupKeepsState(l, p, e.key, e.now);
        DecideAlike(l, Window(After(l, p), e.key), Window(After(l, ChecksOnly(p)), e.key), e.now);
      }
    }
  }

  // ---------------------------------------------------------------- retry_after suffices

  lemma {:induction false} QuietKey(l: Limits, es: seq<Event>, more: seq<Event>, key: Key)
    requires Usable(l) && forall i :: 0 <= i < |more| ==> more[i].Check? ==> more[i].key != key
    ensures var w := Window(After(l, es + more), key); w == Window(After(l, es), key) || w == []
  {
    if more == [] {
      assert es + more == es;
    } else {
      var m := more[..|more| - 1];
      assert (es + more)[..|es + more| - 1] == es + m;
      QuietKey(l, es, m, key);
    }
  }

  /** A refused caller that waits `retry_after` without checking again is then allowed, whatever happens to other
      keys or in cleanups meanwhile. */
  lemma RetryAfterSuffices(l: Limits, es: seq<Event>, key: Key, now: real, more: seq<Event>, later: real)
    requires Usable(l) && TimesRise(es) && (es != [] ==> es[|es| - 1].now <= now)
    requires forall i :: 0 <= i < |more| ==> more[i].Check? ==> more[i].key != key
    requires var answer := Decide(l, Window(After(l, es), key), now).0;
             !answer.allowed && later >= now + answer.retryAfter as real
    ensures Decide(l, Window(After(l, es + [Check(key, now)] + more), key), later).0.allowed
    ensures 1 <= Decide(l, Window(After(l, es), key), now).0.retryAfter <= l.seconds + 1
  {
    var window := Window(After(l, es), key);
    RunKeeps(l, es, key, now);
    RefusedWait(l, Allowed(l, es, key), window, now, later);
    AfterLast(l, es, Check(key, now));
    QuietKey(l, es + [Check(key, now)], more, key);
  }

  lemma RefusedWait(l: Limits, all: seq<real>, window: seq<real>, now: real, later: real)
    requires Usable(l) && Kept(l, all, window, now)
    requires var answer := Decide(l, window, now).0; !answer.allowed && later >= now + answer.retryAfter as real
    ensures 1 <= Decide(l, window, now).0.retryAfter <= l.seconds + 1
    ensures Decide(l, Decide(l, window, now).1, later).0.allowed
  {
    var live := Evict(window, now - l.seconds as real);
    EvictKeeps(l, all, window, now);
    assert live != [] && later - l.seconds as real >= live[0];
    var n := EvictDrops(live, later - l.seconds as real);
    assert n > 0 && |live| <= l.maxRequests;
  }

  // ---------------------------------------------------------------- exactly when a check is allowed

  /** Which of the times are later than `cutoff`. */
  function Since(times: seq<real>, cutoff: real): set<nat> {
    set i: nat | i < |times| && times[i] > cutoff
  }

  lemma {:induction false} FromOn(s: set<nat>, first: nat, end: nat)
    requires first <= end && forall i: nat :: i in s <==> first <= i < end
    ensures |s| == end - first
    decreases end
  {
    if first == end { assert s == {}; } else { FromOn(s - {end - 1}, first, end - 1); }
  }

  lemma LiveAreRecent(l: Limits, all: seq<real>, window: seq<real>, now: real)
    requires Usable(l) && Kept(l, all, window, now)
    ensures |Evict(window, now - l.seconds as real)| == |Since(all, now - l.seconds as real)|
  {
    var live, cutoff := Evict(window, now - l.seconds as real), now - l.seconds as real;
    EvictKeeps(l, all, window, now);
    var k: nat := |all| - |live|;
    forall i: nat ensures i in Since(all, cutoff) <==> k <= i < |all| {
      if k <= i < |all| { assert all[k] == live[0] && all[k] <= all[i]; }
    }
    FromOn(Since(all, cutoff), k, |all|);
  }

  /** Over every run a check is allowed exactly when fewer checks of its key than the limit were allowed since one
      window before it. */
  lemma AllowedIffRoom(l: Limits, es: seq<Event>, key: Key, now: real)
    requires Usable(l) && TimesRise(es) && (es != [] ==> es[|es| - 1].now <= now)
    ensures Decide(l, Window(After(l, es), key), now).0.allowed <==>
              |Since(Allowed(l, es, key), now - l.seconds as real)| < l.maxRequests
  {
    hide TimesRise, Kept, Evict, After, Allowed, Since;
    RunKeeps(l, es, key, now);
    LiveAreRecent(l, Allowed(l, es, key), Window(After(l, es), key), now);
  }

  lemma {:induction false} QuietTimes(l: Limits, es: seq<Event>, more: seq<Event>, key: Key)
    requires Usable(l) && forall i :: 0 <= i < |more| ==> more[i].Check? ==> more[i].key != key
    ensures Allowed(l, es + more, key) == Allowed(l, es, key)
  {
    if more == [] {
      assert es + more == es;
    } else {
      var m := more[..|more| - 1];
      assert (es + more)[..|es + more| - 1] == es + m;
      QuietTimes(l, es, m, key);
    }
  }

  lemma RefusedAddsNothing(l: Limits, es: seq<Event>, key: Key, now: real)
    requires Usable(l) && !Decide(l, Window(After(l, es), key), now).0.allowed
    ensures Allowed(l, es + [Check(key, now)], key) == Allowed(l, es, key)
  {
    assert (es + [Check(key, now)])[..|es|] == es;
  }

  /** `retry_after` is at most a second more than needed: a refused caller that comes back more than a second before it
      is refused again, whatever other keys and cleanups do meanwhile. */
  lemma RetryAfterTight(l: Limits, es: seq<Event>, key: Key, now: real, more: seq<Event>, later: real)
    requires Usable(l) && (es != [] ==> es[|es| - 1].now <= now) && TimesRise(es + [Check(key, now)] + more)
    requires (forall i :: 0 <= i < |more| ==> (more[i].Check? ==> more[i].key != key) && more[i].now <= later)
    requires var answer := Decide(l, Window(After(l, es), key), now).0;
             !answer.allowed && now <= later < now + answer.retryAfter as real - 1.0
    ensures !Decide(l, Window(After(l, es + [Check(key, now)] + more), key), later).0.allowed
  {
    hide Kept, After, Allowed, Decide;
    var run := es + [Check(key, now)] + more;
    assert TimesRise(es) by { assert forall i :: 0 <= i < |es| ==> run[i] == es[i]; }
    RunKeeps(l, es, key, now);
    RefusedAddsNothing(l, es, key, now);
    QuietTimes(l, es + [Check(key, now)], more, key);
    AllowedIffRoom(l, run, key, later);
    StillFull(l, Allowed(l, es, key), Window(After(l, es), key), now, later);
  }

  lemma StillFull(l: Limits, all: seq<real>, window: seq<real>, now: real, later: real)
    requires Usable(l) && Kept(l, all, window, now)
    requires var answer := Decide(l, window, now).0;
             !answer.allowed && now <= later < now + answer.retryAfter as real - 1.0
    ensures |Since(all, later - l.seconds as real)| >= l.maxRequests
  {
    var live, cutoff := Evict(window, now - l.seconds as real), later - l.seconds as real;
    EvictKeeps(l, all, window, now);
    var k: nat := |all| - |live|;
    assert live[0] > cutoff;
    forall i: nat ensures i in Since(all, cutoff) <==> k <= i < |all| {
      if k <= i < |all| { assert all[k] == live[0] && all[k] <= all[i]; }
    }
    FromOn(Since(all, cutoff), k, |all|);
  }

  /** A cleanup drops exactly the keys without a time left in the window, and changes no other. */
  lemma SweepDropsDead(l: Limits, ws: Windows, key: Key, now: real)
    requires Rising(Window(ws, key))
    ensures var swept, times := Swept(l, ws, now), Window(ws, key);
            && (key in swept <==> exists i :: 0 <= i < |times| && times[i] > now - l.seconds as real)
            && (key in swept ==> swept[key] == ws[key])
  {}
}
