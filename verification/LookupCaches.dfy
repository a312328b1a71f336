/** The baseline cache: lookups whose table read happens outside the lock, so that fills of different threads and
    invalidations interleave (`get_baseline`, `insert_baselines`). */
module LookupCaches {
  import opened Collections

  /** (network, scope type, scope id, feature). */
  type Key = string

  datatype Baseline = Baseline(p50: real, p99: real, samples: nat, computedAt: real, windowDays: nat)

  /** A cached payload and the time it was stored. */
  datatype Slot<P> = Slot(value: P, fetchedAt: real)

  predicate Hits<P>(cache: map<Key, Slot<P>>, key: Key, now: real, ttl: real) {
    ttl > 0.0 && key in cache && now - cache[key].fetchedAt < ttl
  }

  /** The cache after a lookup: an expired slot is dropped. */
  function Looked<P>(cache: map<Key, Slot<P>>, key: Key, now: real, ttl: real): map<Key, Slot<P>> {
    if ttl > 0.0 && !Hits(cache, key, now, ttl) then cache - {key} else cache
  }

  /** The cache after a fill: a full one is emptied first. */
  function Stored<P>(cache: map<Key, Slot<P>>, key: Key, value: P, now: real, ttl: real, max: nat): map<Key, Slot<P>> {
    if ttl <= 0.0 then cache
    else (if |cache| >= max then map[] else cache)[key := Slot(value, now)]
  }

  /** The critical sections as the process runs them. */
  class BaselineCache {
    var slots: map<Key, Slot<Option<Baseline>>>
    const ttl: real
    const max: nat

    constructor (ttl: real, max: nat)
      ensures slots == map[] && this.ttl == ttl && this.max == max
    {
      slots := map[];
      this.ttl, this.max := ttl, max;
    }

    method Lookup(key: Key, now: real) returns (hit: Option<Option<Baseline>>)
      modifies this
      ensures slots == Looked(old(slots), key, now, ttl)
      ensures hit == if Hits(old(slots), key, now, ttl) then Some(old(slots)[key].value) else None
    {
      hit := None;
      if ttl > 0.0 && key in slots {
        var slot := slots[key];
        if now - slot.fetchedAt < ttl { return Some(slot.value); }
        slots := slots - {key};
      }
      assert old(slots) - {key} == old(slots) || key in old(slots);
    }

    method Fill(key: Key, value: Option<Baseline>, now: real)
      modifies this
      ensures slots == Stored(old(slots), key, value, now, ttl, max)
    {
      if ttl > 0.0 {
        if |slots| >= max { slots := map[]; }
        slots := slots[key := Slot(value, now)];
      }
    }

    method Clear()
      modifies this
      ensures slots == map[]
    {
      slots := map[];
    }
  }

  /** A stored answer is served for exactly the TTL; the first lookup after that drops it. */
  lemma SlotLives<P>(cache: map<Key, Slot<P>>, key: Key, value: P, stored: real, now: real, ttl: real, max: nat)
    requires ttl > 0.0
    ensures var after := Stored(cache, key, value, stored, ttl, max);
            && key in after && after[key] == Slot(value, stored)
            && (Hits(after, key, now, ttl) <==> now < stored + ttl)
            && (key in Looked(after, key, now, ttl) <==> now < stored + ttl)
  {}

  /** A fill with room left keeps every other slot, and the cache never holds more slots than its limit, or than one. */
  lemma FillKeepsLimit<P>(cache: map<Key, Slot<P>>, key: Key, value: P, now: real, ttl: real, max: nat, k: Key)
    ensures var after := Stored(cache, key, value, now, ttl, max);
            && (|cache| < max && k != key ==> (k in after <==> k in cache) && (k in cache ==> after[k] == cache[k]))
            && (|cache| <= max || |cache| <= 1 ==> |after| <= max || |after| <= 1)
  {
    if |cache| < max {
      var after := Stored(cache, key, value, now, ttl, max);
      assert ttl > 0.0 ==> after.Keys == cache.Keys + {key};
    } else {
      var none: map<Key, Slot<P>> := map[];
      assert none[key := Slot(value, now)].Keys == {key};
    }
  }

  // ---------------------------------------------------------------- the threads and the table

  /** A version of the table and when it came to be. */
  datatype Version = Version(at: real, rows: map<Key, Baseline>)

  /** What a query saw: the answer, the version it read and when, and when the lookup that missed began. */
  datatype Sighting = Sighting(value: Option<Baseline>, version: nat, readAt: real, started: real)

  /** Between the critical sections; `asked` counts the invalidations before the lookup. */
  datatype Phase = Querying(key: Key, started: real, asked: nat) | Filling(key: Key, seen: Sighting, asked: nat)

  datatype Reply = Reply(key: Key, seen: Sighting, at: real, cached: bool, filledAt: real, asked: nat)

  datatype World = World(versions: seq<Version>, cache: map<Key, Slot<Sighting>>, threads: map<nat, Phase>,
                         clears: nat, replies: seq<Reply>, now: real)

  datatype Action =
    | Lookup(thread: nat, key: Key)
    | Query(thread: nat)
    | Fill(thread: nat)
    | Write(rows: map<Key, Baseline>)
    | Clear

  /** An atomic step and when it happens. */
  datatype Move = Move(at: real, action: Action)

  datatype Config = Config(ttl: real, max: nat)

  function Get(rows: map<Key, Baseline>, k: Key): Option<Baseline> {
    if k in rows then Some(rows[k]) else None
  }

  /** A step that is not possible changes nothing. */
  function Next(w: World, m: Move, c: Config): World {
    if m.at < w.now then w else Act(w.(now := m.at), m.action, c)
  }

  function Act(w: World, a: Action, c: Config): World {
    match a
    case Lookup(t, k) =>
      if t in w.threads then w
      else if Hits(w.cache, k, w.now, c.ttl) then
        w.(replies := w.replies + [Reply(k, w.cache[k].value, w.now, true, w.cache[k].fetchedAt, w.clears)])
      else w.(cache := Looked(w.cache, k, w.now, c.ttl), threads := w.threads[t := Querying(k, w.now, w.clears)])
    case Query(t) =>
      if t !in w.threads || !w.threads[t].Querying? || w.versions == [] then w
      else
        var p, v := w.threads[t], |w.versions| - 1;
        w.(threads :=
            w.threads[t := Filling(p.key, Sighting(Get(w.versions[v].rows, p.key), v, w.now, p.started), p.asked)])
    case Fill(t) =>
      if t !in w.threads || !w.threads[t].Filling? then w
      else
        var p := w.threads[t];
        w.(cache := Stored(w.cache, p.key, p.seen, w.now, c.ttl, c.max), threads := w.threads - {t},
           replies := w.replies + [Reply(p.key, p.seen, w.now, false, w.now, p.asked)])
    case Write(rows) =>
      if w.versions == [] then w.(versions := [Version(w.now, rows)])
      else w.(versions := w.versions + [Version(w.now, w.versions[|w.versions| - 1].rows + rows)])
    case Clear => w.(cache := map[], clears := w.clears + 1)
  }

  function Run(w: World, ms: seq<Move>, c: Config): World {
    if ms == [] then w else Next(Run(w, ms[..|ms| - 1], c), ms[|ms| - 1], c)
  }

  // ---------------------------------------------------------------- answers are recent

  /** The sighting is the table's answer for the key at the instant it was read. */
  ghost predicate True(vs: seq<Version>, now: real, k: Key, s: Sighting) {
    && s.version < |vs| && s.value == Get(vs[s.version].rows, k)
    && s.started <= s.readAt <= now && vs[s.version].at <= s.readAt
    && (s.version + 1 < |vs| ==> s.readAt <= vs[s.version + 1].at)
  }

  ghost predicate TrueSlot(vs: seq<Version>, now: real, k: Key, slot: Slot<Sighting>) {
    True(vs, now, k, slot.value) && slot.value.readAt <= slot.fetchedAt <= now
  }

  ghost predicate TruePhase(vs: seq<Version>, now: real, p: Phase) {
    if p.Querying? then p.started <= now else True(vs, now, p.key, p.seen)
  }

  /** A reply from the cache is younger than the TTL plus the duration of the fill that stored it; any other was read
      between its lookup and its answer. */
  ghost predicate Recent(vs: seq<Version>, now: real, r: Reply, c: Config) {
    && True(vs, now, r.key, r.seen) && r.seen.readAt <= r.filledAt <= r.at <= now
    && (if r.cached then r.at - r.seen.readAt < c.ttl + (r.filledAt - r.seen.started) else r.filledAt == r.at)
  }

  ghost predicate Sound(w: World, c: Config) {
    && (forall i :: 0 <= i < |w.versions| ==> w.versions[i].at <= w.now)
    && (forall k :: k in w.cache ==> TrueSlot(w.versions, w.now, k, w.cache[k]))
    && (forall t :: t in w.threads ==> TruePhase(w.versions, w.now, w.threads[t]))
    && (forall i :: 0 <= i < |w.replies| ==> Recent(w.versions, w.now, w.replies[i], c))
  }

  /** A later clock and a further version falsify nothing. */
  lemma StaysTrue(vs: seq<Version>, now: real, later: real, v: Version, k: Key, s: Sighting)
    requires True(vs, now, k, s) && now <= later && later <= v.at
    ensures True(vs, later, k, s) && True(vs + [v], later, k, s)
  {}

  lemma ClockMoves(w: World, at: real, c: Config)
    requires Sound(w, c) && at >= w.now
    ensures Sound(w.(now := at), c)
  {}

  lemma WriteIsSound(w: World, rows: map<Key, Baseline>, c: Config)
    requires Sound(w, c)
    ensures Sound(Act(w, Write(rows), c), c)
  {
    var n := Act(w, Write(rows), c);
    var v := n.versions[|n.versions| - 1];
    forall k, s | True(w.versions, w.now, k, s) ensures True(n.versions, n.now, k, s) {
      StaysTrue(w.versions, w.now, w.now, v, k, s);
    }
    forall k | k in n.cache ensures TrueSlot(n.versions, n.now, k, n.cache[k]) {
      assert TrueSlot(w.versions, w.now, k, w.cache[k]);
    }
    forall t | t in n.threads ensures TruePhase(n.versions, n.now, n.threads[t]) {
      assert TruePhase(w.versions, w.now, w.threads[t]);
    }
    forall i | 0 <= i < |n.replies| ensures Recent(n.versions, n.now, n.replies[i], c) {
      assert Recent(w.versions, w.now, w.replies[i], c);
    }
  }

  lemma LookupIsSound(w: World, t: nat, k: Key, c: Config)
    requires Sound(w, c)
    ensures Sound(Act(w, Lookup(t, k), c), c)
  {
    hide True;
    if t !in w.threads && Hits(w.cache, k, w.now, c.ttl) {
      assert TrueSlot(w.versions, w.now, k, w.cache[k]);
      StartedFirst(w.versions, w.now, k, w.cache[k].value);
    }
  }

  lemma QueryIsSound(w: World, t: nat, c: Config)
    requires Sound(w, c)
    ensures Sound(Act(w, Query(t), c), c)
  {
    hide True;
    if t in w.threads && w.threads[t].Querying? && w.versions != [] {
      assert TruePhase(w.versions, w.now, w.threads[t]);
      NowTrue(w, w.threads[t].key, w.threads[t].started);
    }
  }

  lemma FillIsSound(w: World, t: nat, c: Config)
    requires Sound(w, c)
    ensures Sound(Act(w, Fill(t), c), c)
  {
    hide True;
    if t in w.threads && w.threads[t].Filling? {
      assert TruePhase(w.versions, w.now, w.threads[t]);
      StartedFirst(w.versions, w.now, w.threads[t].key, w.threads[t].seen);
    }
  }

  lemma ActIsSound(w: World, a: Action, c: Config)
    requires Sound(w, c)
    ensures Sound(Act(w, a, c), c)
  {
    match a
    case Lookup(t, k) => LookupIsSound(w, t, k, c);
    case Query(t) => QueryIsSound(w, t, c);
    case Fill(t) => FillIsSound(w, t, c);
    case Write(rows) => WriteIsSound(w, rows, c);
    case Clear =>
  }

  lemma StartedFirst(vs: seq<Version>, now: real, k: Key, s: Sighting)
    requires True(vs, now, k, s)
    ensures s.started <= s.readAt <= now
  {}

  lemma NowTrue(w: World, k: Key, started: real)
    requires w.versions != [] && started <= w.now && w.versions[|w.versions| - 1].at <= w.now
    ensures var v := |w.versions| - 1;
            True(w.versions, w.now, k, Sighting(Get(w.versions[v].rows, k), v, w.now, started))
  {}

  lemma {:induction false} RunsAreSound(w: World, ms: seq<Move>, c: Config)
    requires Sound(w, c)
    ensures Sound(Run(w, ms, c), c)
  {
    hide Sound, Act;
    if ms != [] {
      var b, m := Run(w, ms[..|ms| - 1], c), ms[|ms| - 1];
      RunsAreSound(w, ms[..|ms| - 1], c);
      if m.at >= b.now {
        ClockMoves(b, m.at, c);
        ActIsSound(b.(now := m.at), m.action, c);
      }
    }
  }

  /** The process at start-up over a table that stands since `at`. */
  function Start(at: real, rows: map<Key, Baseline>): World {
    World([Version(at, rows)], map[], map[], 0, [], at)
  }

  /** Version `v` stood at instant `u` and holds the value for the key. */
  predicate HoldsAt(vs: seq<Version>, v: nat, k: Key, value: Option<Baseline>, u: real)
    requires v < |vs|
  {
    vs[v].at <= u && (v + 1 < |vs| ==> u <= vs[v + 1].at) && value == Get(vs[v].rows, k)
  }

  /** The table held the value for the key at instant `u`. */
  ghost predicate Held(vs: seq<Version>, k: Key, value: Option<Baseline>, u: real) {
    exists v: nat :: v < |vs| && HoldsAt(vs, v, k, value, u)
  }

  /** The reply was the table's value at an instant no older than the TTL plus the duration of the fill that cached it;
      one that was not cached, no older than its own lookup. */
  ghost predicate AnsweredFromTable(vs: seq<Version>, r: Reply, ttl: real) {
    && Held(vs, r.key, r.seen.value, r.seen.readAt) && r.seen.readAt <= r.at
    && (if r.cached then r.at - r.seen.readAt < ttl + (r.filledAt - r.seen.started)
        else r.seen.started <= r.seen.readAt)
  }

  lemma RecentMeans(vs: seq<Version>, now: real, r: Reply, c: Config)
    requires Recent(vs, now, r, c)
    ensures AnsweredFromTable(vs, r, c.ttl)
  {
    assert HoldsAt(vs, r.seen.version, r.key, r.seen.value, r.seen.readAt);
  }

  /** So is every answer, however threads and writers interleave. */
  lemma AnswersAreRecent(at: real, rows: map<Key, Baseline>, ms: seq<Move>, i: nat, c: Config)
    requires i < |Run(Start(at, rows), ms, c).replies|
    ensures AnsweredFromTable(Run(Start(at, rows), ms, c).versions, Run(Start(at, rows), ms, c).replies[i], c.ttl)
  {
    hide Run;
    RunsAreSound(Start(at, rows), ms, c);
    var w := Run(Start(at, rows), ms, c);
    RecentMeans(w.versions, w.now, w.replies[i], c);
  }

  ghost predicate WithinLimit(w: World, c: Config) {
    |w.cache| <= c.max || |w.cache| <= 1
  }

  /** Over every run the cache stays within its limit. */
  lemma {:induction false} RunsStayWithinLimit(at: real, rows: map<Key, Baseline>, ms: seq<Move>, c: Config)
    ensures WithinLimit(Run(Start(at, rows), ms, c), c)
  {
    if ms != [] {
      hide Hits, Stored;
      var b, m := Run(Start(at, rows), ms[..|ms| - 1], c), ms[|ms| - 1];
      RunsStayWithinLimit(at, rows, ms[..|ms| - 1], c);
      if m.action.Fill? && m.action.thread in b.threads && b.threads[m.action.thread].Filling? {
        var p := b.threads[m.action.thread];
        FillKeepsLimit(b.cache, p.key, p.seen, m.at, c.ttl, c.max, p.key);
      }
      if m.action.Lookup? { FewerSlots(b.cache, m.action.key, m.at, c.ttl); }
    }
  }

  lemma FewerSlots<P>(cache: map<Key, Slot<P>>, key: Key, now: real, ttl: real)
    ensures |Looked(cache, key, now, ttl)| <= |cache|
  {
    var after := Looked(cache, key, now, ttl);
    SmallerSet(after.Keys, cache.Keys);
  }

  // ---------------------------------------------------------------- invalidation

  /** Nothing older than version `v` can reach the cache or a reply asked after `e` invalidations. */
  ghost predicate Newer(w: World, e: nat, v: nat) {
    && |w.versions| > v && w.clears >= e
    && (forall k :: k in w.cache ==> w.cache[k].value.version >= v)
    && (forall t :: t in w.threads && w.threads[t].Filling? ==> w.threads[t].seen.version >= v)
  }

  /** Every reply to a lookup made after `e` invalidations is of version `v` or later. */
  ghost predicate SeesInsert(w: World, e: nat, v: nat) {
    forall i :: 0 <= i < |w.replies| && w.replies[i].asked >= e ==> w.replies[i].seen.version >= v
  }

  /** A fill in flight read the table before version `v`. */
  ghost predicate Overlaps(w: World, v: nat) {
    exists t :: t in w.threads && w.threads[t].Filling? && w.threads[t].seen.version < v
  }

  lemma NewerStays(w: World, m: Move, e: nat, v: nat, c: Config)
    requires Newer(w, e, v) && SeesInsert(w, e, v)
    ensures Newer(Next(w, m, c), e, v) && SeesInsert(Next(w, m, c), e, v)
  {
    hide Act;
    if m.at >= w.now {
      var b := w.(now := m.at);
      match m.action
      case Lookup(t, k) => NewerLookup(b, t, k, e, v, c);
      case Fill(t) => NewerFill(b, t, e, v, c);
      case _ => NewerOther(b, m.action, e, v, c);
    }
  }

  lemma NewerLookup(w: World, t: nat, k: Key, e: nat, v: nat, c: Config)
    requires Newer(w, e, v) && SeesInsert(w, e, v)
    ensures Newer(Act(w, Lookup(t, k), c), e, v) && SeesInsert(Act(w, Lookup(t, k), c), e, v)
  {}

  lemma NewerFill(w: World, t: nat, e: nat, v: nat, c: Config)
    requires Newer(w, e, v) && SeesInsert(w, e, v)
    ensures Newer(Act(w, Fill(t), c), e, v) && SeesInsert(Act(w, Fill(t), c), e, v)
  {}

  lemma NewerOther(w: World, a: Action, e: nat, v: nat, c: Config)
    requires Newer(w, e, v) && SeesInsert(w, e, v) && !a.Lookup? && !a.Fill?
    ensures Newer(Act(w, a, c), e, v) && SeesInsert(Act(w, a, c), e, v)
  {}

  lemma {:induction false} NewerRuns(w: World, ms: seq<Move>, e: nat, v: nat, c: Config)
    requires Newer(w, e, v) && SeesInsert(w, e, v)
    ensures Newer(Run(w, ms, c), e, v) && SeesInsert(Run(w, ms, c), e, v)
  {
    hide Newer, SeesInsert, Next;
    if ms != [] {
      NewerRuns(w, ms[..|ms| - 1], e, v, c);
      NewerStays(Run(w, ms[..|ms| - 1], c), ms[|ms| - 1], e, v, c);
    }
  }

  /** No lookup so far was made after more invalidations than there have been. */
  ghost predicate AskedInTime(w: World) {
    && (forall i :: 0 <= i < |w.replies| ==> w.replies[i].asked <= w.clears)
    && (forall t :: t in w.threads ==> w.threads[t].asked <= w.clears)
  }

  /** Exactly when no fill in flight had read the table before: every lookup after an insert's invalidation, in every
      run, answers from the inserted version or a later one. */
  lemma InsertSeenIffNoOverlap(w: World, v: nat, c: Config)
    requires v < |w.versions| && AskedInTime(w) && c.ttl > 0.0
    ensures (forall ms :: SeesInsert(Run(Act(w, Clear, c), ms, c), w.clears + 1, v)) <==> !Overlaps(w, v)
  {
    var n := Act(w, Clear, c);
    if !Overlaps(w, v) {
      forall ms ensures SeesInsert(Run(n, ms, c), w.clears + 1, v) { NewerRuns(n, ms, w.clears + 1, v, c); }
    } else {
      var t :| t in w.threads && w.threads[t].Filling? && w.threads[t].seen.version < v;
      StaleHit(n, t, w.clears + 1, v, c);
    }
  }

  /** The fill lands after the invalidation and the next lookup hits it. */
  lemma StaleHit(w: World, t: nat, e: nat, v: nat, c: Config)
    requires t in w.threads && w.threads[t].Filling? && w.threads[t].seen.version < v && w.clears == e && c.ttl > 0.0
    ensures var k := w.threads[t].key;
            !SeesInsert(Run(w, [Move(w.now, Fill(t)), Move(w.now, Lookup(t, k))], c), e, v)
  {
    var p := w.threads[t];
    var ms := [Move(w.now, Fill(t)), Move(w.now, Lookup(t, p.key))];
    var a := Next(w, ms[0], c);
    assert a.cache[p.key] == Slot(p.seen, w.now) && t !in a.threads && a.now == w.now;
    var b := Next(a, ms[1], c);
    assert b.replies[|a.replies|] == Reply(p.key, p.seen, w.now, true, w.now, e);
    assert ms[..1] == [ms[0]] && ms[..1][..0] == [];
    assert Run(w, [], c) == w && Run(w, ms[..1], c) == a && Run(w, ms, c) == b;
  }

  /** A run from start-up over an empty table that gets there: a lookup misses and queries, and only then is the key's
      baseline inserted. The fill lands after the invalidation, and the next lookup answers that there is none. */
  lemma InsertMissed(k: Key, b: Baseline, c: Config)
    requires c.ttl > 0.0
    ensures var late := [Move(0.0, Lookup(0, k)), Move(0.0, Query(0)), Move(0.0, Write(map[k := b]))];
            var w := Run(Start(0.0, map[]), late, c);
            && Overlaps(w, 1) && AskedInTime(w) && w.versions != []
            && Get(w.versions[|w.versions| - 1].rows, k) == Some(b)
            && !SeesInsert(Run(Act(w, Clear, c), [Move(0.0, Fill(0)), Move(0.0, Lookup(0, k))], c), w.clears + 1, 1)
  {
    var ms := [Move(0.0, Lookup(0, k)), Move(0.0, Query(0)), Move(0.0, Write(map[k := b]))];
    var first := Start(0.0, map[]);
    var missed := Next(first, ms[0], c);
    assert missed.threads == map[0 := Querying(k, 0.0, 0)] && missed.versions == first.versions;
    var queried := Next(missed, ms[1], c);
    assert queried.threads[0] == Filling(k, Sighting(None, 0, 0.0, 0.0), 0);
    var written := Next(queried, ms[2], c);
    assert ms[..2][..1] == [ms[0]] && ms[..1][..0] == [] && ms[..2][..1] == ms[..1];
    assert Run(first, [], c) == first && Run(first, ms[..1], c) == missed && Run(first, ms[..2], c) == queried;
    assert Run(first, ms, c) == written;
    StaleHit(Act(written, Clear, c), 0, 1, 1, c);
  }
}
