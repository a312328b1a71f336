/** The scoring engine of one network: its poll cursor, rescan clock and two paced attempt budgets
    (`run_once` and its helpers in engine.py). */
module Engine {
  import opened Collections

  type Hash = string

  // ---------------------------------------------------------------- one paced attempt budget

  /** Counted attempts and the monotonic time of the last counted one. */
  datatype Entry = Entry(count: int, at: real)

  datatype Pacing = Pacing(max: int, retry: real)

  /** What one poll means to a budget. */
  datatype Event = Untouched | Clears | Fails(at: real)

  predicate InWindow(e: Option<Entry>, now: real, p: Pacing) {
    e.Some? && now - e.value.at < p.retry
  }

  function Counted(e: Option<Entry>): int {
    if e.Some? then e.value.count else 0
  }

  predicate GivesUp(e: Option<Entry>, v: Event, p: Pacing) {
    v.Fails? && !InWindow(e, v.at, p) && Counted(e) + 1 >= p.max
  }

  function After(e: Option<Entry>, v: Event, p: Pacing): Option<Entry> {
    match v
    case Untouched => e
    case Clears => None
    case Fails(now) =>
      if InWindow(e, now, p) then e
      else if Counted(e) + 1 < p.max then Some(Entry(Counted(e) + 1, now))
      else None
  }

  predicate Keeps(e: Option<Entry>, v: Event, p: Pacing) {
    v.Fails? ==> GivesUp(e, v, p)
  }

  /** The budget after a history of events. */
  function Budget(first: Option<Entry>, vs: seq<Event>, p: Pacing): Option<Entry> {
    if vs == [] then first else After(Budget(first, vs[..|vs| - 1], p), vs[|vs| - 1], p)
  }

  lemma {:induction false} BudgetJoins(first: Option<Entry>, a: seq<Event>, b: seq<Event>, p: Pacing)
    ensures Budget(first, a + b, p) == Budget(Budget(first, a, p), b, p)
  {
    if b == [] {
      assert a + b == a;
    } else {
      BudgetJoins(first, a, b[..|b| - 1], p);
      assert (a + b)[..|a + b| - 1] == a + b[..|b| - 1];
    }
  }

  /** When the first counted failure of the current budget happened. */
  function Began(vs: seq<Event>, p: Pacing): Option<real> {
    if vs == [] then None
    else
      var e, v := Budget(None, vs[..|vs| - 1], p), vs[|vs| - 1];
      if After(e, v, p).None? then None
      else if e.None? && v.Fails? then Some(v.at)
      else Began(vs[..|vs| - 1], p)
  }

  /** `n` retry intervals. */
  function Intervals(n: int, p: Pacing): real {
    n as real * p.retry
  }

  lemma OneMore(n: int, p: Pacing)
    ensures Intervals(0, p) == 0.0 && Intervals(n + 1, p) == Intervals(n, p) + p.retry
  {}

  lemma {:induction false} BudgetIsPaced(vs: seq<Event>, p: Pacing)
    ensures Budget(None, vs, p).Some? ==>
              && Began(vs, p).Some? && 1 <= Budget(None, vs, p).value.count < p.max
              && Budget(None, vs, p).value.at >= Began(vs, p).value + Intervals(Budget(None, vs, p).value.count - 1, p)
  {
    hide Intervals;
    if vs != [] {
      var before := vs[..|vs| - 1];
      BudgetIsPaced(before, p);
      OneMore(Counted(Budget(None, before, p)) - 1, p);
    }
  }

  /** No budget gives up earlier than max - 1 retry intervals after its first counted failure; a budget of one attempt
      or less gives up on the first failure. */
  lemma GivesUpNoEarlier(vs: seq<Event>, v: Event, p: Pacing)
    requires GivesUp(Budget(None, vs, p), v, p)
    ensures p.max >= 2 ==> Began(vs, p).Some? && v.at >= Began(vs, p).value + Intervals(p.max - 1, p)
    ensures p.max < 2 ==> Budget(None, vs, p).None?
  {
    hide Intervals, Budget, Began;
    BudgetIsPaced(vs, p);
    OneMore(p.max - 2, p);
  }

  // ---------------------------------------------------------------- rows, configuration, one tick's surroundings

  /** The raw_data column: JSON text, text that parses to nothing, or nothing. */
  datatype Payload = Json | Unreadable | Absent

  /** A fetched row, with what the surroundings do to it in this tick: the clock when its payload is resolved, whether
      the raw store has the payload, the wall clock when it is scored, and the scorers and enrichments that fail. */
  datatype Item = Item(hash: Hash, ingested: real, payload: Payload, truncated: bool, dated: bool,
                       readAt: real, stored: bool, scoredAt: real,
                       scorersFailed: seq<string>, enrichmentsFailed: seq<string>)

  datatype Scored = Scored(item: Item, payload: bool, unavailable: bool)

  datatype Meta = Meta(rawUnavailable: bool, scorersFailed: seq<string>, enrichmentsFailed: seq<string>)

  /** A row of tx_class_scores: the transaction it scores, whether the scorers saw its payload, and the `_meta`
      marker. */
  datatype ScoreRow = ScoreRow(source: Item, payload: bool, meta: Meta)

  const UNMARKED := Meta(false, [], [])

  datatype Config = Config(enabled: bool, interval: real, window: real, overlap: real,
                           rawStore: bool, raw: Pacing, defers: bool, defer: Pacing)

  /** One tick: clock readings, the two queries (absent when they raise), and whether a later step raises. */
  datatype Tick = Tick(start: real, wall: real, failedAt: real, deferAt: real, end: real,
                       poll: Option<seq<Item>>, fallback: Option<seq<Item>>,
                       crashes: bool, inserted: bool, notified: bool)

  datatype State = State(watermark: Option<real>, lastRescan: Option<real>,
                         raw: map<Hash, Entry>, defer: map<Hash, Entry>, scores: seq<ScoreRow>)

  datatype Outcome = Raised | Returned(count: nat)

  function At(m: map<Hash, Entry>, h: Hash): Option<Entry> {
    if h in m then Some(m[h]) else None
  }

  function Put(m: map<Hash, Entry>, h: Hash, e: Option<Entry>): map<Hash, Entry> {
    if e.Some? then m[h := e.value] else m - {h}
  }

  // ---------------------------------------------------------------- resolving payloads

  predicate NeedsRecovery(x: Item) {
    x.payload.Unreadable? || (x.payload.Absent? && x.truncated)
  }

  predicate Recovered(x: Item, c: Config) {
    c.rawStore && x.dated && x.stored
  }

  function RawEvent(x: Item, c: Config): Event {
    if !NeedsRecovery(x) then Untouched else if Recovered(x, c) then Clears else Fails(x.readAt)
  }

  function Resolved(x: Item, c: Config): Scored {
    Scored(x, x.payload.Json? || (NeedsRecovery(x) && Recovered(x, c)), RawEvent(x, c).Fails?)
  }

  function RawAfter(m: map<Hash, Entry>, xs: seq<Item>, c: Config): map<Hash, Entry> {
    if xs == [] then m
    else
      var b, x := RawAfter(m, xs[..|xs| - 1], c), xs[|xs| - 1];
      Put(b, x.hash, After(At(b, x.hash), RawEvent(x, c), c.raw))
  }

  function RawKept(m: map<Hash, Entry>, xs: seq<Item>, c: Config): seq<Scored> {
    if xs == [] then []
    else
      var b, x := RawAfter(m, xs[..|xs| - 1], c), xs[|xs| - 1];
      RawKept(m, xs[..|xs| - 1], c) + if Keeps(At(b, x.hash), RawEvent(x, c), c.raw) then [Resolved(x, c)] else []
  }

  lemma RawNone(m: map<Hash, Entry>, xs: seq<Item>, c: Config)
    ensures RawAfter(m, xs[..0], c) == m && RawKept(m, xs[..0], c) == []
  {}

  lemma RawNext(m: map<Hash, Entry>, xs: seq<Item>, i: nat, c: Config)
    requires i < |xs|
    ensures var b, x := RawAfter(m, xs[..i], c), xs[i];
            && RawAfter(m, xs[..i + 1], c) == Put(b, x.hash, After(At(b, x.hash), RawEvent(x, c), c.raw))
            && RawKept(m, xs[..i + 1], c)
               == RawKept(m, xs[..i], c) + if Keeps(At(b, x.hash), RawEvent(x, c), c.raw) then [Resolved(x, c)] else []
  {
    assert xs[..i + 1][..i] == xs[..i];
  }

  // ---------------------------------------------------------------- incomplete scoring

  predicate Incomplete(x: Item) {
    x.scorersFailed != [] || x.enrichmentsFailed != []
  }

  function DeferEvent(s: Scored, now: real, c: Config): Event {
    if !c.defers then Untouched else if Incomplete(s.item) then Fails(now) else Clears
  }

  function RowOf(s: Scored, c: Config): ScoreRow {
    ScoreRow(s.item, s.payload, if c.defers then Meta(s.unavailable, s.item.scorersFailed, s.item.enrichmentsFailed)
                                else Meta(s.unavailable, [], []))
  }

  function DeferAfter(m: map<Hash, Entry>, ss: seq<Scored>, now: real, c: Config): map<Hash, Entry> {
    if ss == [] then m
    else
      var b, s := DeferAfter(m, ss[..|ss| - 1], now, c), ss[|ss| - 1];
      Put(b, s.item.hash, After(At(b, s.item.hash), DeferEvent(s, now, c), c.defer))
  }

  function DeferKept(m: map<Hash, Entry>, ss: seq<Scored>, now: real, c: Config): seq<ScoreRow> {
    if ss == [] then []
    else
      var b, s := DeferAfter(m, ss[..|ss| - 1], now, c), ss[|ss| - 1];
      DeferKept(m, ss[..|ss| - 1], now, c)
      + if Keeps(At(b, s.item.hash), DeferEvent(s, now, c), c.defer) then [RowOf(s, c)] else []
  }

  // ---------------------------------------------------------------- the cursor and one whole tick

  function Newest(xs: seq<Item>): real
    requires xs != []
  {
    if |xs| == 1 then xs[0].ingested
    else
      var n := Newest(xs[..|xs| - 1]);
      if xs[|xs| - 1].ingested > n then xs[|xs| - 1].ingested else n
  }

  function Advanced(w: Option<real>, xs: seq<Item>, c: Config): Option<real> {
    if xs == [] then w
    else if w.None? || Newest(xs) - c.overlap > w.value then Some(Newest(xs) - c.overlap)
    else w
  }

  predicate Due(s: State, t: Tick, c: Config) {
    s.lastRescan.None? || t.start - s.lastRescan.value >= c.interval
  }

  /** The bound of the tick's first query. */
  function Since(s: State, t: Tick, c: Config): Option<real> {
    if Due(s, t, c) then if c.window > 0.0 then Some(t.wall - c.window) else None
    else s.watermark
  }

  /** A rescan query that raises while there is a cursor falls back to it. */
  predicate FallsBack(s: State, t: Tick, c: Config) {
    t.poll.None? && Due(s, t, c) && s.watermark.Some?
  }

  /** The rows the tick works on; absent when it raises before it has any, or is switched off. */
  function Got(s: State, t: Tick, c: Config): Option<seq<Item>> {
    if !c.enabled then None else if FallsBack(s, t, c) then t.fallback else t.poll
  }

  function Armed(s: State, rescan: bool, now: real): State {
    if rescan then s.(lastRescan := Some(now)) else s
  }

  function Step(s: State, t: Tick, c: Config): (State, Outcome) {
    if !c.enabled then (s, Returned(0))
    else
      var fell := FallsBack(s, t, c);
      var rescan := Due(s, t, c) && !fell;
      var s1 := Armed(s, fell, t.failedAt);
      var got := Got(s, t, c);
      if got.None? then (s1, Raised)
      else if got.value == [] then (Armed(s1, rescan, t.end), Returned(0))
      else Scoring(s1, got.value, t, rescan, c)
  }

  /** The part of a tick after a non-empty fetch. */
  function Scoring(s: State, xs: seq<Item>, t: Tick, rescan: bool, c: Config): (State, Outcome) {
    var kept := RawKept(s.raw, xs, c);
    var s2 := s.(raw := RawAfter(s.raw, xs, c));
    if kept == [] then (Armed(s2, rescan, t.end), Returned(0))
    else if t.crashes then (s2, Raised)
    else
      var rows := DeferKept(s.defer, kept, t.deferAt, c);
      var s3 := s2.(defer := DeferAfter(s.defer, kept, t.deferAt, c));
      var s4 := s3.(scores := s.scores + rows);
      if rows == [] then (Armed(s3.(watermark := Advanced(s.watermark, xs, c)), rescan, t.end), Returned(|xs|))
      else if !t.inserted then (s3, Raised)
      else if !t.notified then (s4, Raised)
      else (Armed(s4.(watermark := Advanced(s.watermark, xs, c)), rescan, t.end), Returned(|xs|))
  }

  function Run(s: State, ts: seq<Tick>, c: Config): State {
    if ts == [] then s else Step(Run(s, ts[..|ts| - 1], c), ts[|ts| - 1], c).0
  }

  // ---------------------------------------------------------------- the engine as it stands in memory

  class ScoringEngine {
    var watermark: Option<real>
    var lastRescan: Option<real>
    var rawAttempts: map<Hash, Entry>
    var deferAttempts: map<Hash, Entry>
    /** The rows inserted into tx_class_scores. */
    var scores: seq<ScoreRow>

    ghost function Now(): State
      reads this
    {
      State(watermark, lastRescan, rawAttempts, deferAttempts, scores)
    }

    constructor ()
      ensures Now() == State(None, None, map[], map[], [])
    {
      watermark, lastRescan := None, None;
      rawAttempts, deferAttempts, scores := map[], map[], [];
    }

    method PollSince(t: Tick, c: Config) returns (since: Option<real>, rescan: bool)
      ensures since == Since(Now(), t, c) && rescan == Due(Now(), t, c)
    {
      if lastRescan.None? || t.start - lastRescan.value >= c.interval {
        if c.window > 0.0 { return Some(t.wall - c.window), true; }
        return None, true;
      }
      return watermark, false;
    }

    method AdvanceWatermark(rows: seq<Item>, c: Config)
      modifies this`watermark
      ensures watermark == Advanced(old(watermark), rows, c)
    {
      if |rows| == 0 { return; }
      var newest := rows[0].ingested;
      assert rows[..1] == [rows[0]];
      for i := 1 to |rows|
        invariant newest == Newest(rows[..i])
        invariant watermark == old(watermark)
      {
        assert rows[..i + 1][..i] == rows[..i];
        if rows[i].ingested > newest { newest := rows[i].ingested; }
      }
      assert rows[..|rows|] == rows;
      var candidate := newest - c.overlap;
      if watermark.None? || candidate > watermark.value { watermark := Some(candidate); }
    }

    method ResolveRawData(rows: seq<Item>, c: Config) returns (kept: seq<Scored>)
      modifies this`rawAttempts
      ensures kept == RawKept(old(rawAttempts), rows, c) && rawAttempts == RawAfter(old(rawAttempts), rows, c)
    {
      hide RawKept, RawAfter;
      kept := [];
      RawNone(rawAttempts, rows, c);
      for i := 0 to |rows|
        invariant kept == RawKept(old(rawAttempts), rows[..i], c)
        invariant rawAttempts == RawAfter(old(rawAttempts), rows[..i], c)
      {
        RawNext(old(rawAttempts), rows, i, c);
        var row := rows[i];
        ghost var was := rawAttempts;
        var parsed := row.payload.Json?;
        var needs := !parsed && (row.truncated || row.payload.Unreadable?);
        if needs && c.rawStore && row.dated { parsed := row.stored; }
        var unavailable := false;
        var deferred := false;
        if needs && !parsed {
          var entry := if row.hash in rawAttempts then Some(rawAttempts[row.hash]) else None;
          if entry.Some? && row.readAt - entry.value.at < c.raw.retry {
            deferred := true;
          } else {
            var attempts := (if entry.Some? then entry.value.count else 0) + 1;
            if attempts < c.raw.max {
              rawAttempts := rawAttempts[row.hash := Entry(attempts, row.readAt)];
              deferred := true;
            } else {
              rawAttempts := rawAttempts - {row.hash};
              unavailable := true;
            }
          }
        } else if needs {
          rawAttempts := rawAttempts - {row.hash};
        }
        PutSame(was, row.hash);
        if !deferred { kept := kept + [Scored(row, parsed, unavailable)]; }
      }
      assert rows[..|rows|] == rows;
    }

    method HandleIncompleteScoring(results: seq<Scored>, now: real, c: Config) returns (kept: seq<ScoreRow>)
      modifies this`deferAttempts
      ensures kept == DeferKept(old(deferAttempts), results, now, c)
      ensures deferAttempts == DeferAfter(old(deferAttempts), results, now, c)
    {
      kept := [];
      if !c.defers {
        for i := 0 to |results|
          invariant kept == DeferKept(old(deferAttempts), results[..i], now, c)
          invariant deferAttempts == old(deferAttempts) == DeferAfter(deferAttempts, results[..i], now, c)
        {
          assert results[..i + 1][..i] == results[..i];
          PutSame(deferAttempts, results[i].item.hash);
          kept := kept + [ScoreRow(results[i].item, results[i].payload, Meta(results[i].unavailable, [], []))];
        }
        assert results[..|results|] == results;
        return;
      }
      for i := 0 to |results|
        invariant kept == DeferKept(old(deferAttempts), results[..i], now, c)
        invariant deferAttempts == DeferAfter(old(deferAttempts), results[..i], now, c)
      {
        assert results[..i + 1][..i] == results[..i];
        var r := results[i];
        var x := r.item;
        ghost var was := deferAttempts;
        PutSame(was, x.hash);
        if x.scorersFailed == [] && x.enrichmentsFailed == [] {
          deferAttempts := deferAttempts - {x.hash};
          kept := kept + [ScoreRow(x, r.payload, Meta(r.unavailable, [], []))];
          continue;
        }
        var entry := if x.hash in deferAttempts then Some(deferAttempts[x.hash]) else None;
        if entry.Some? && now - entry.value.at < c.defer.retry { continue; }
        var attempts := (if entry.Some? then entry.value.count else 0) + 1;
        if attempts < c.defer.max {
          deferAttempts := deferAttempts[x.hash := Entry(attempts, now)];
          continue;
        }
        deferAttempts := deferAttempts - {x.hash};
        var meta := Meta(r.unavailable, [], []);
        if x.scorersFailed != [] { meta := meta.(scorersFailed := x.scorersFailed); }
        if x.enrichmentsFailed != [] { meta := meta.(enrichmentsFailed := x.enrichmentsFailed); }
        kept := kept + [ScoreRow(x, r.payload, meta)];
      }
      assert results[..|results|] == results;
    }

    method RunOnce(t: Tick, c: Config) returns (outcome: Outcome)
      modifies this
      ensures (Now(), outcome) == Step(old(Now()), t, c)
    {
      if !c.enabled { return Returned(0); }
      var since, rescan := PollSince(t, c);
      var fetched := t.poll;
      if fetched.None? {
        if !rescan || watermark.None? { return Raised; }
        lastRescan := Some(t.failedAt);
        rescan := false;
        fetched := t.fallback;
        if fetched.None? { return Raised; }
      }
      if fetched.value == [] {
        if rescan { lastRescan := Some(t.end); }
        return Returned(0);
      }
      var rows := ResolveRawData(fetched.value, c);
      if rows == [] {
        if rescan { lastRescan := Some(t.end); }
        return Returned(0);
      }
      if t.crashes { return Raised; }
      var results := HandleIncompleteScoring(rows, t.deferAt, c);
      if results == [] {
        AdvanceWatermark(fetched.value, c);
        if rescan { lastRescan := Some(t.end); }
        return Returned(|fetched.value|);
      }
      if !t.inserted { return Raised; }
      scores := scores + results;
      if !t.notified { return Raised; }
      AdvanceWatermark(fetched.value, c);
      if rescan { lastRescan := Some(t.end); }
      return Returned(|fetched.value|);
    }
  }

  lemma PutSame(m: map<Hash, Entry>, h: Hash)
    ensures Put(m, h, At(m, h)) == m
  {}

  // ---------------------------------------------------------------- what one tick does, part by part

  function Fetched(s: State, t: Tick, c: Config): seq<Item> {
    if Got(s, t, c).Some? then Got(s, t, c).value else []
  }

  /** The transactions that reach scoring. */
  function Staged(s: State, t: Tick, c: Config): seq<Scored> {
    if t.crashes then [] else RawKept(s.raw, Fetched(s, t, c), c)
  }

  /** The rows the tick persists. */
  function Written(s: State, t: Tick, c: Config): seq<ScoreRow> {
    if t.inserted then DeferKept(s.defer, Staged(s, t, c), t.deferAt, c) else []
  }

  lemma StepParts(s: State, t: Tick, c: Config)
    ensures var n := Step(s, t, c).0;
            && n.raw == RawAfter(s.raw, Fetched(s, t, c), c)
            && n.defer == DeferAfter(s.defer, Staged(s, t, c), t.deferAt, c)
            && n.scores == s.scores + Written(s, t, c)
  {
    hide RawKept, RawAfter, DeferKept, DeferAfter, Newest, Due;
    NothingHappens(s, t.deferAt, c);
    assert s.scores + [] == s.scores;
  }

  lemma NothingHappens(s: State, now: real, c: Config)
    ensures RawAfter(s.raw, [], c) == s.raw && RawKept(s.raw, [], c) == []
    ensures DeferAfter(s.defer, [], now, c) == s.defer && DeferKept(s.defer, [], now, c) == []
  {}

  ghost predicate AtLeast(a: Option<real>, b: Option<real>) {
    b.Some? ==> a.Some? && a.value >= b.value
  }

  /** The cursor never falls and never moves in a tick that raises, a failed insert included; where it moves, it moves
      to the newest fetched row less the overlap. */
  lemma WatermarkMoves(s: State, t: Tick, c: Config)
    ensures var (n, o) := Step(s, t, c);
            && AtLeast(n.watermark, s.watermark)
            && (o.Raised? ==> n.watermark == s.watermark)
            && (n.watermark != s.watermark ==>
                  && o.Returned? && Fetched(s, t, c) != []
                  && n.watermark == Some(Newest(Fetched(s, t, c)) - c.overlap)
                  && n.scores == s.scores + DeferKept(s.defer, RawKept(s.raw, Fetched(s, t, c), c), t.deferAt, c))
  {
    hide RawKept, RawAfter, DeferKept, DeferAfter, Newest;
    StepParts(s, t, c);
    assert DeferKept(s.defer, RawKept(s.raw, Fetched(s, t, c), c), t.deferAt, c) == [] ==> s.scores + [] == s.scores;
  }

  lemma {:induction false} WatermarkOnlyRises(s: State, ts: seq<Tick>, i: nat, c: Config)
    requires i <= |ts|
    ensures AtLeast(Run(s, ts, c).watermark, Run(s, ts[..i], c).watermark)
  {
    hide Step;
    if i < |ts| {
      var p := ts[..|ts| - 1];
      assert p[..i] == ts[..i];
      WatermarkOnlyRises(s, p, i, c);
      WatermarkMoves(Run(s, p, c), ts[|ts| - 1], c);
    } else {
      assert ts[..i] == ts;
    }
  }

  /** The rescan clock is armed exactly by a due rescan that ends without raising, or by one whose query raises while
      there is a cursor to fall back to, however that tick ends. */
  lemma ClockArmed(s: State, t: Tick, c: Config)
    ensures var (n, o) := Step(s, t, c);
            if c.enabled && Due(s, t, c) && t.poll.Some? && o.Returned? then n.lastRescan == Some(t.end)
            else if c.enabled && Due(s, t, c) && t.poll.None? && s.watermark.Some? then n.lastRescan == Some(t.failedAt)
            else n.lastRescan == s.lastRescan
  {
    hide RawKept, RawAfter, DeferKept, DeferAfter, Newest;
  }

  lemma {:induction false} NewestIsNewest(xs: seq<Item>, i: nat)
    requires i < |xs|
    ensures xs[i].ingested <= Newest(xs)
  {
    if |xs| > 1 { NewestIsNewest(xs[..|xs| - 1], if i < |xs| - 1 then i else 0); }
  }

  /** After a tick that got as far as scoring and did not raise, whether its rows were written or all deferred, the
      cursor is no more than the overlap behind any row it fetched. */
  lemma CursorKeepsUp(s: State, t: Tick, i: nat, c: Config)
    requires Step(s, t, c).1.Returned? && Staged(s, t, c) != [] && i < |Fetched(s, t, c)|
    ensures var w := Step(s, t, c).0.watermark;
            w.Some? && w.value >= Fetched(s, t, c)[i].ingested - c.overlap
  {
    NewestIsNewest(Fetched(s, t, c), i);
    hide RawKept, RawAfter, DeferKept, DeferAfter, Newest, Due;
  }

  /** After a rescan that ended without raising, ticks that start within the interval read from the cursor, and the
      first one after it rescans again. */
  lemma NextRescan(s: State, t: Tick, u: Tick, c: Config)
    requires c.enabled && t.poll.Some? && Step(s, t, c).1.Returned?
    requires s.lastRescan.None? || t.start >= s.lastRescan.value + c.interval
    ensures var n := Step(s, t, c).0;
            Since(n, u, c) == if u.start < t.end + c.interval then n.watermark
                              else if c.window > 0.0 then Some(u.wall - c.window) else None
  {
    hide RawKept, RawAfter, DeferKept, DeferAfter, Newest, Step;
    ClockArmed(s, t, c);
  }

  /** A tick answers how many rows it fetched, or 0 when none of them got as far as scoring. It raises exactly when it
      has no rows to work on because a query raised, or when an enrichment, the insert or the notification does. */
  lemma OutcomeTells(s: State, t: Tick, c: Config)
    ensures var (o, rows) := (Step(s, t, c).1, DeferKept(s.defer, Staged(s, t, c), t.deferAt, c));
            && (o.Returned? ==>
                  o.count == if !t.crashes && Staged(s, t, c) != [] then |Fetched(s, t, c)| else 0)
            && (o.Raised? <==>
                  && c.enabled
                  && (|| Got(s, t, c).None?
                      || (t.crashes && RawKept(s.raw, Fetched(s, t, c), c) != [])
                      || (rows != [] && !(t.inserted && t.notified))))
  {
    hide RawKept, RawAfter, DeferKept, DeferAfter, Newest, Due, FallsBack;
    NothingHappens(s, t.deferAt, c);
  }
}
