/** What holds over whole runs of the scoring engine: nothing is dropped, nothing is silently incomplete, deferral is
    bounded and patient. */
module EngineRuns {
  import opened Collections
  import opened Engine

  ghost predicate HasRow(rows: seq<ScoreRow>, h: Hash) {
    exists i :: 0 <= i < |rows| && rows[i].source.hash == h
  }

  ghost predicate Fetches(xs: seq<Item>, h: Hash) {
    exists i :: 0 <= i < |xs| && xs[i].hash == h
  }

  ghost predicate Stages(ss: seq<Scored>, h: Hash) {
    exists i :: 0 <= i < |ss| && ss[i].item.hash == h
  }

  /** The engine at start-up. */
  const START := State(None, None, map[], map[], [])

  // ---------------------------------------------------------------- nothing is dropped

  lemma {:induction false} RawAccounts(m: map<Hash, Entry>, xs: seq<Item>, h: Hash, c: Config)
    requires Fetches(xs, h)
    ensures h in RawAfter(m, xs, c) || Stages(RawKept(m, xs, c), h)
  {
    var p, x := xs[..|xs| - 1], xs[|xs| - 1];
    var was, now := RawKept(m, p, c), RawKept(m, xs, c);
    if x.hash == h {
      if now != was { assert now[|was|].item.hash == h; }
    } else {
      var i :| 0 <= i < |xs| && xs[i].hash == h;
      assert p[i].hash == h;
      RawAccounts(m, p, h, c);
      if Stages(was, h) {
        var j :| 0 <= j < |was| && was[j].item.hash == h;
        assert now[j] == was[j];
      }
    }
  }

  lemma {:induction false} DeferAccounts(m: map<Hash, Entry>, ss: seq<Scored>, now: real, h: Hash, c: Config)
    requires Stages(ss, h)
    ensures h in DeferAfter(m, ss, now, c) || HasRow(DeferKept(m, ss, now, c), h)
  {
    var p, s := ss[..|ss| - 1], ss[|ss| - 1];
    var was, rows := DeferKept(m, p, now, c), DeferKept(m, ss, now, c);
    if s.item.hash == h {
      if rows != was { assert rows[|was|].source.hash == h; }
    } else {
      var i :| 0 <= i < |ss| && ss[i].item.hash == h;
      assert p[i].item.hash == h;
      DeferAccounts(m, p, now, h, c);
      if HasRow(was, h) {
        var j :| 0 <= j < |was| && was[j].source.hash == h;
        assert rows[j] == was[j];
      }
    }
  }

  /** A tick that does not raise leaves each transaction it fetched with a row or with a counted attempt. */
  lemma NothingIsDropped(s: State, t: Tick, h: Hash, c: Config)
    requires Step(s, t, c).1.Returned? && Fetches(Fetched(s, t, c), h)
    ensures var n := Step(s, t, c).0; HasRow(n.scores, h) || h in n.raw || h in n.defer
  {
    hide RawKept, RawAfter, DeferKept, DeferAfter, Newest, Due, Advanced;
    StepParts(s, t, c);
    var n := Step(s, t, c).0;
    RawAccounts(s.raw, Fetched(s, t, c), h, c);
    if h !in n.raw {
      var kept := RawKept(s.raw, Fetched(s, t, c), c);
      assert kept != [] && kept == Staged(s, t, c);
      DeferAccounts(s.defer, kept, t.deferAt, h, c);
      if h !in n.defer {
        var rows := DeferKept(s.defer, kept, t.deferAt, c);
        assert rows != [] && rows == Written(s, t, c);
        var j :| 0 <= j < |rows| && rows[j].source.hash == h;
        assert n.scores[|s.scores| + j] == rows[j];
      }
    }
  }

  // ---------------------------------------------------------------- nothing is silently incomplete

  /** Every scorer and enrichment ran, and the scorers saw the payload. */
  predicate Complete(r: ScoreRow) {
    r.payload && !Incomplete(r.source)
  }

  predicate Marked(r: ScoreRow) {
    r.meta != UNMARKED
  }

  /** The row's flags and marker tell what happened to its transaction. */
  predicate Honest(r: ScoreRow, c: Config) {
    var x := r.source;
    var broken := x.payload.Unreadable? || (x.payload.Absent? && x.truncated);
    var rescued := c.rawStore && x.dated && x.stored;
    && r.payload == (x.payload.Json? || (broken && rescued)) && r.meta.rawUnavailable == (broken && !rescued)
    && r.meta.scorersFailed == (if c.defers then r.source.scorersFailed else [])
    && r.meta.enrichmentsFailed == (if c.defers then r.source.enrichmentsFailed else [])
  }

  ghost predicate AllHonest(rows: seq<ScoreRow>, c: Config) {
    forall i :: 0 <= i < |rows| ==> Honest(rows[i], c)
  }

  lemma {:induction false} KeptAreResolved(m: map<Hash, Entry>, xs: seq<Item>, c: Config)
    ensures forall i :: 0 <= i < |RawKept(m, xs, c)| ==> RawKept(m, xs, c)[i] == Resolved(RawKept(m, xs, c)[i].item, c)
  {
    if xs != [] { KeptAreResolved(m, xs[..|xs| - 1], c); }
  }

  lemma {:induction false} RowsAreHonest(m: map<Hash, Entry>, ss: seq<Scored>, now: real, c: Config)
    requires forall i :: 0 <= i < |ss| ==> ss[i] == Resolved(ss[i].item, c)
    ensures AllHonest(DeferKept(m, ss, now, c), c)
  {
    if ss != [] {
      RowsAreHonest(m, ss[..|ss| - 1], now, c);
      assert ss[|ss| - 1] == Resolved(ss[|ss| - 1].item, c);
    }
  }

  lemma {:induction false} RunsAreHonest(s: State, ts: seq<Tick>, c: Config)
    requires AllHonest(s.scores, c)
    ensures AllHonest(Run(s, ts, c).scores, c)
  {
    hide Step, RawKept, DeferKept, Honest;
    if ts != [] {
      var p, t := ts[..|ts| - 1], ts[|ts| - 1];
      RunsAreHonest(s, p, c);
      var was := Run(s, p, c);
      StepParts(was, t, c);
      KeptAreResolved(was.raw, Fetched(was, t, c), c);
      RowsAreHonest(was.defer, Staged(was, t, c), t.deferAt, c);
    }
  }

  /** Over every run from start-up, a row that is neither complete nor marked is exactly one whose payload column was
      empty and not flagged as truncated, or, with deferral switched off, one whose scorers or enrichments failed. */
  lemma SilentlyIncomplete(ts: seq<Tick>, i: nat, c: Config)
    requires i < |Run(START, ts, c).scores|
    ensures var r := Run(START, ts, c).scores[i];
            var x := r.source;
            var failed := x.scorersFailed != [] || x.enrichmentsFailed != [];
            !Complete(r) && !Marked(r) <==>
              if c.defers then x.payload.Absent? && !x.truncated && !failed
              else (x.payload.Absent? && !x.truncated)
                   || ((x.payload.Json? || (c.rawStore && x.dated && x.stored)) && failed)
  {
    hide Run;
    RunsAreHonest(START, ts, c);
  }

  // ---------------------------------------------------------------- the candidate set

  /** A transactions row: its ingestion time, how many inputs it has, and the time on its visible input rows, if any. */
  datatype Tx = Tx(ingested: real, inputs: nat, inputsAt: Option<real>)

  predicate Ready(tx: Tx, since: Option<real>) {
    tx.inputs == 0 || (tx.inputsAt.Some? && (since.Some? ==> tx.inputsAt.value >= since.value))
  }

  ghost predicate IsScored(rows: seq<ScoreRow>, h: Hash, since: Option<real>) {
    exists i :: 0 <= i < |rows| && rows[i].source.hash == h && (since.Some? ==> rows[i].source.scoredAt >= since.value)
  }

  /** What the unanalyzed query may return. */
  ghost predicate Candidate(txs: map<Hash, Tx>, rows: seq<ScoreRow>, h: Hash, since: Option<real>) {
    && h in txs && (since.Some? ==> txs[h].ingested >= since.value) && Ready(txs[h], since)
    && !IsScored(rows, h, since)
  }

  /** Input rows carry their transaction's ingestion time, and no transaction is scored before it is ingested. */
  ghost predicate Stamped(txs: map<Hash, Tx>, rows: seq<ScoreRow>) {
    && (forall h :: h in txs && txs[h].inputsAt.Some? ==> txs[h].inputsAt.value == txs[h].ingested)
    && (forall i :: 0 <= i < |rows| && rows[i].source.hash in txs ==>
          rows[i].source.scoredAt >= txs[rows[i].source.hash].ingested)
  }

  /** Bounding all three sides of the query loses nothing but the transactions older than the bound. */
  lemma BoundedPollIsExact(txs: map<Hash, Tx>, rows: seq<ScoreRow>, h: Hash, since: real)
    requires Stamped(txs, rows)
    ensures Candidate(txs, rows, h, Some(since)) <==>
              Candidate(txs, rows, h, None) && txs[h].ingested >= since
  {
    if h in txs {
      if HasRow(rows, h) && txs[h].ingested >= since {
        var i :| 0 <= i < |rows| && rows[i].source.hash == h;
        assert rows[i].source.scoredAt >= since;
      }
    }
  }

  /** Exactly when the next query may return a ready transaction without a row: on a due rescan, when the window is off
      or reaches back to it; otherwise when there is no cursor or the cursor is not past it. */
  lemma NextPollReaches(txs: map<Hash, Tx>, s: State, t: Tick, h: Hash, c: Config)
    requires Stamped(txs, s.scores) && Candidate(txs, s.scores, h, None)
    ensures Candidate(txs, s.scores, h, Since(s, t, c)) <==>
              if Due(s, t, c) then c.window <= 0.0 || txs[h].ingested >= t.wall - c.window
              else s.watermark.None? || txs[h].ingested >= s.watermark.value
  {
    if Since(s, t, c).Some? { BoundedPollIsExact(txs, s.scores, h, Since(s, t, c).value); }
  }

  lemma HasRowJoins(a: seq<ScoreRow>, b: seq<ScoreRow>, h: Hash)
    ensures HasRow(a + b, h) <==> HasRow(a, h) || HasRow(b, h)
  {
    if HasRow(a, h) {
      var i :| 0 <= i < |a| && a[i].source.hash == h;
      assert (a + b)[i].source.hash == h;
    }
    if HasRow(b, h) {
      var i :| 0 <= i < |b| && b[i].source.hash == h;
      assert (a + b)[|a| + i].source.hash == h;
    }
  }

  lemma UnboundedCandidate(txs: map<Hash, Tx>, rows: seq<ScoreRow>, h: Hash)
    ensures Candidate(txs, rows, h, None) <==> h in txs && Ready(txs[h], None) && !HasRow(rows, h)
  {}

  /** Tick `i` of a run writes a row of transaction `h`. */
  ghost predicate WritesIn(s: State, ts: seq<Tick>, i: nat, h: Hash, c: Config)
    requires i < |ts|
  {
    HasRow(Written(Run(s, ts[..i], c), ts[i], c), h)
  }

  ghost predicate EverWrites(s: State, ts: seq<Tick>, h: Hash, c: Config) {
    exists i :: 0 <= i < |ts| && WritesIn(s, ts, i, h, c)
  }

  lemma EverWritesNext(s: State, ts: seq<Tick>, h: Hash, c: Config)
    requires ts != []
    ensures EverWrites(s, ts, h, c) <==> EverWrites(s, ts[..|ts| - 1], h, c) || WritesIn(s, ts, |ts| - 1, h, c)
  {
    hide Run, Written, HasRow;
    var p := ts[..|ts| - 1];
    forall i | 0 <= i < |p| ensures WritesIn(s, p, i, h, c) <==> WritesIn(s, ts, i, h, c) { assert p[..i] == ts[..i]; }
  }

  lemma {:induction false} RowsComeFromTicks(s: State, ts: seq<Tick>, h: Hash, c: Config)
    ensures HasRow(Run(s, ts, c).scores, h) <==> HasRow(s.scores, h) || EverWrites(s, ts, h, c)
  {
    if ts != [] {
      hide Step, Written, HasRow, EverWrites;
      var p, t := ts[..|ts| - 1], ts[|ts| - 1];
      RowsComeFromTicks(s, p, h, c);
      EverWritesNext(s, ts, h, c);
      StepParts(Run(s, p, c), t, c);
      HasRowJoins(Run(s, p, c).scores, Written(Run(s, p, c), t, c), h);
    }
  }

  /** A transaction without a row that is still in the transactions table after a run, whatever else that table gained
      or lost meanwhile, is a candidate of an unbounded rescan exactly when the engine wrote it no row. */
  lemma StaysCandidate(later: map<Hash, Tx>, s: State, ts: seq<Tick>, h: Hash, c: Config)
    requires !HasRow(s.scores, h) && h in later && Ready(later[h], None)
    ensures Candidate(later, Run(s, ts, c).scores, h, None) <==> !EverWrites(s, ts, h, c)
  {
    hide Candidate, Run, HasRow, EverWrites, Ready;
    RowsComeFromTicks(s, ts, h, c);
    UnboundedCandidate(later, Run(s, ts, c).scores, h);
  }

  /** The bound of the query whose rows the tick works on. */
  function Bound(s: State, t: Tick, c: Config): Option<real> {
    if FallsBack(s, t, c) then s.watermark else Since(s, t, c)
  }

  /** The query does not return a transaction older than its bound. */
  ghost predicate KeepsBound(s: State, t: Tick, h: Hash, ingested: real, c: Config) {
    Fetches(Fetched(s, t, c), h) && Bound(s, t, c).Some? ==> ingested >= Bound(s, t, c).value
  }

  lemma RunNone(s: State, c: Config)
    ensures Run(s, [], c) == s
  {}

  // ---------------------------------------------------------------- one transaction's budgets in a batch

  function RawEvents(xs: seq<Item>, h: Hash, c: Config): seq<Event> {
    if xs == [] then []
    else RawEvents(xs[..|xs| - 1], h, c) + if xs[|xs| - 1].hash == h then [RawEvent(xs[|xs| - 1], c)] else []
  }

  function DeferEvents(ss: seq<Scored>, h: Hash, now: real, c: Config): seq<Event> {
    if ss == [] then []
    else DeferEvents(ss[..|ss| - 1], h, now, c)
         + if ss[|ss| - 1].item.hash == h then [DeferEvent(ss[|ss| - 1], now, c)] else []
  }

  lemma BudgetExtends(first: Option<Entry>, vs: seq<Event>, v: Event, p: Pacing)
    ensures Budget(first, vs + [v], p) == After(Budget(first, vs, p), v, p)
  {
    assert (vs + [v])[..|vs|] == vs;
  }

  lemma {:induction false} RawIsBudget(m: map<Hash, Entry>, xs: seq<Item>, h: Hash, c: Config)
    ensures At(RawAfter(m, xs, c), h) == Budget(At(m, h), RawEvents(xs, h, c), c.raw)
  {
    if xs != [] {
      hide After, RawEvent;
      var p, x := xs[..|xs| - 1], xs[|xs| - 1];
      RawIsBudget(m, p, h, c);
      if x.hash == h { BudgetExtends(At(m, h), RawEvents(p, h, c), RawEvent(x, c), c.raw); }
      else { assert RawEvents(p, h, c) + [] == RawEvents(p, h, c); }
    }
  }

  lemma {:induction false} DeferIsBudget(m: map<Hash, Entry>, ss: seq<Scored>, h: Hash, now: real, c: Config)
    ensures At(DeferAfter(m, ss, now, c), h) == Budget(At(m, h), DeferEvents(ss, h, now, c), c.defer)
  {
    if ss != [] {
      hide After, DeferEvent;
      var p, s := ss[..|ss| - 1], ss[|ss| - 1];
      DeferIsBudget(m, p, h, now, c);
      if s.item.hash == h { BudgetExtends(At(m, h), DeferEvents(p, h, now, c), DeferEvent(s, now, c), c.defer); }
      else { assert DeferEvents(p, h, now, c) + [] == DeferEvents(p, h, now, c); }
    }
  }

  // ---------------------------------------------------------------- deferral is patient

  /** The history of a transaction's payload budget over a run. */
  function RawHistory(s: State, ts: seq<Tick>, h: Hash, c: Config): seq<Event> {
    if ts == [] then []
    else RawHistory(s, ts[..|ts| - 1], h, c) + RawEvents(Fetched(Run(s, ts[..|ts| - 1], c), ts[|ts| - 1], c), h, c)
  }

  function DeferHistory(s: State, ts: seq<Tick>, h: Hash, c: Config): seq<Event> {
    if ts == [] then []
    else DeferHistory(s, ts[..|ts| - 1], h, c)
         + DeferEvents(Staged(Run(s, ts[..|ts| - 1], c), ts[|ts| - 1], c), h, ts[|ts| - 1].deferAt, c)
  }

  lemma {:induction false} HistoriesExplain(s: State, ts: seq<Tick>, h: Hash, c: Config)
    ensures At(Run(s, ts, c).raw, h) == Budget(At(s.raw, h), RawHistory(s, ts, h, c), c.raw)
    ensures At(Run(s, ts, c).defer, h) == Budget(At(s.defer, h), DeferHistory(s, ts, h, c), c.defer)
  {
    if ts != [] {
      hide Step, RawEvents, DeferEvents, Budget, RawAfter, DeferAfter, At, Fetched, Staged;
      var p, t := ts[..|ts| - 1], ts[|ts| - 1];
      HistoriesExplain(s, p, h, c);
      var was := Run(s, p, c);
      StepParts(was, t, c);
      RawIsBudget(was.raw, Fetched(was, t, c), h, c);
      DeferIsBudget(was.defer, Staged(was, t, c), h, t.deferAt, c);
      BudgetJoins(At(s.raw, h), RawHistory(s, p, h, c), RawEvents(Fetched(was, t, c), h, c), c.raw);
      BudgetJoins(At(s.defer, h), DeferHistory(s, p, h, c), DeferEvents(Staged(was, t, c), h, t.deferAt, c), c.defer);
    }
  }

  /** The event the k-th fetched row brings to its transaction's payload budget gives up on it. */
  predicate RawGivesUp(s: State, xs: seq<Item>, k: nat, c: Config)
    requires k < |xs|
  {
    GivesUp(At(RawAfter(s.raw, xs[..k], c), xs[k].hash), RawEvent(xs[k], c), c.raw)
  }

  predicate DeferGivesUp(s: State, ss: seq<Scored>, k: nat, now: real, c: Config)
    requires k < |ss|
  {
    GivesUp(At(DeferAfter(s.defer, ss[..k], now, c), ss[k].item.hash), DeferEvent(ss[k], now, c), c.defer)
  }

  /** Over every run from start-up, a payload is given up no earlier than max - 1 retry intervals after the first
      counted failure of its current budget. */
  lemma PayloadGivenUpNoEarlier(ts: seq<Tick>, t: Tick, k: nat, c: Config)
    requires k < |Fetched(Run(START, ts, c), t, c)| && c.raw.max >= 2
    requires RawGivesUp(Run(START, ts, c), Fetched(Run(START, ts, c), t, c), k, c)
    ensures var xs := Fetched(Run(START, ts, c), t, c);
            var began := Began(RawHistory(START, ts, xs[k].hash, c) + RawEvents(xs[..k], xs[k].hash, c), c.raw);
            began.Some? && xs[k].readAt >= began.value + Intervals(c.raw.max - 1, c.raw)
  {
    hide Run, Fetched, RawAfter, RawHistory, RawEvents, Budget, Began, Intervals;
    var was := Run(START, ts, c);
    var xs := Fetched(was, t, c);
    var h := xs[k].hash;
    HistoriesExplain(START, ts, h, c);
    RawIsBudget(was.raw, xs[..k], h, c);
    BudgetJoins(None, RawHistory(START, ts, h, c), RawEvents(xs[..k], h, c), c.raw);
    GivesUpNoEarlier(RawHistory(START, ts, h, c) + RawEvents(xs[..k], h, c), RawEvent(xs[k], c), c.raw);
  }

  /** The same for incomplete scoring. */
  lemma ScoringGivenUpNoEarlier(ts: seq<Tick>, t: Tick, k: nat, c: Config)
    requires k < |Staged(Run(START, ts, c), t, c)| && c.defer.max >= 2
    requires DeferGivesUp(Run(START, ts, c), Staged(Run(START, ts, c), t, c), k, t.deferAt, c)
    ensures var ss := Staged(Run(START, ts, c), t, c);
            var h := ss[k].item.hash;
            var began := Began(DeferHistory(START, ts, h, c) + DeferEvents(ss[..k], h, t.deferAt, c), c.defer);
            began.Some? && t.deferAt >= began.value + Intervals(c.defer.max - 1, c.defer)
  {
    hide Run, Staged, DeferAfter, DeferHistory, DeferEvents, Budget, Began, Intervals;
    var was := Run(START, ts, c);
    var ss := Staged(was, t, c);
    var h := ss[k].item.hash;
    HistoriesExplain(START, ts, h, c);
    DeferIsBudget(was.defer, ss[..k], h, t.deferAt, c);
    BudgetJoins(None, DeferHistory(START, ts, h, c), DeferEvents(ss[..k], h, t.deferAt, c), c.defer);
    GivesUpNoEarlier(DeferHistory(START, ts, h, c) + DeferEvents(ss[..k], h, t.deferAt, c),
                     DeferEvent(ss[k], t.deferAt, c), c.defer);
  }

  // ---------------------------------------------------------------- deferral is bounded

  function Items(xs: seq<Item>, h: Hash): seq<Item> {
    if xs == [] then []
    else Items(xs[..|xs| - 1], h) + if xs[|xs| - 1].hash == h then [xs[|xs| - 1]] else []
  }

  function Scorings(ss: seq<Scored>, h: Hash): seq<Scored> {
    if ss == [] then []
    else Scorings(ss[..|ss| - 1], h) + if ss[|ss| - 1].item.hash == h then [ss[|ss| - 1]] else []
  }

  function Rows(rows: seq<ScoreRow>, h: Hash): seq<ScoreRow> {
    if rows == [] then []
    else Rows(rows[..|rows| - 1], h) + if rows[|rows| - 1].source.hash == h then [rows[|rows| - 1]] else []
  }

  lemma {:induction false} RowsTell(rows: seq<ScoreRow>, h: Hash)
    ensures HasRow(rows, h) <==> Rows(rows, h) != []
  {
    if rows != [] {
      var p := rows[..|rows| - 1];
      RowsTell(p, h);
      if HasRow(p, h) { var i :| 0 <= i < |p| && p[i].source.hash == h; assert rows[i].source.hash == h; }
      if HasRow(rows, h) && rows[|p|].source.hash != h {
        var i :| 0 <= i < |rows| && rows[i].source.hash == h;
        assert p[i].source.hash == h;
      }
    }
  }

  lemma AppendItem(xs: seq<Item>, x: Item, m: map<Hash, Entry>, h: Hash, c: Config)
    ensures Items(xs + [x], h) == if x.hash == h then Items(xs, h) + [x] else Items(xs, h)
    ensures var b := RawAfter(m, xs, c);
            && RawAfter(m, xs + [x], c) == Put(b, x.hash, After(At(b, x.hash), RawEvent(x, c), c.raw))
            && RawKept(m, xs + [x], c)
               == if Keeps(At(b, x.hash), RawEvent(x, c), c.raw) then RawKept(m, xs, c) + [Resolved(x, c)]
                  else RawKept(m, xs, c)
  {
    assert (xs + [x])[..|xs|] == xs;
  }

  lemma AppendScored(ss: seq<Scored>, s: Scored, m: map<Hash, Entry>, h: Hash, now: real, c: Config)
    ensures Scorings(ss + [s], h) == if s.item.hash == h then Scorings(ss, h) + [s] else Scorings(ss, h)
    ensures var (b, k) := (DeferAfter(m, ss, now, c), s.item.hash);
            && DeferAfter(m, ss + [s], now, c) == Put(b, k, After(At(b, k), DeferEvent(s, now, c), c.defer))
            && DeferKept(m, ss + [s], now, c)
               == if Keeps(At(b, k), DeferEvent(s, now, c), c.defer) then DeferKept(m, ss, now, c) + [RowOf(s, c)]
                  else DeferKept(m, ss, now, c)
  {
    assert (ss + [s])[..|ss|] == ss;
  }

  lemma AppendRow(rows: seq<ScoreRow>, r: ScoreRow, h: Hash)
    ensures Rows(rows + [r], h) == if r.source.hash == h then Rows(rows, h) + [r] else Rows(rows, h)
  {
    assert (rows + [r])[..|rows|] == rows;
  }

  lemma PutAt(m: map<Hash, Entry>, k: Hash, e: Option<Entry>, h: Hash)
    ensures At(Put(m, k, e), h) == if k == h then e else At(m, h)
  {}

  ghost predicate RawOwn(m: map<Hash, Entry>, xs: seq<Item>, h: Hash, c: Config) {
    && At(RawAfter(m, xs, c), h) == At(RawAfter(m, Items(xs, h), c), h)
    && Scorings(RawKept(m, xs, c), h) == RawKept(m, Items(xs, h), c)
  }

  ghost predicate DeferOwn(m: map<Hash, Entry>, ss: seq<Scored>, h: Hash, now: real, c: Config) {
    && At(DeferAfter(m, ss, now, c), h) == At(DeferAfter(m, Scorings(ss, h), now, c), h)
    && Rows(DeferKept(m, ss, now, c), h) == DeferKept(m, Scorings(ss, h), now, c)
  }

  lemma RawOwnNext(m: map<Hash, Entry>, p: seq<Item>, x: Item, h: Hash, c: Config)
    requires RawOwn(m, p, h, c)
    ensures RawOwn(m, p + [x], h, c)
  {
    hide Items, RawAfter, RawKept, Scorings, After, RawEvent, Keeps, Put, At, DeferAfter, DeferKept, DeferEvent, RowOf;
    AppendItem(p, x, m, h, c);
    AppendItem(Items(p, h), x, m, h, c);
    AppendScored(RawKept(m, p, c), Resolved(x, c), m, h, 0.0, c);
    PutAt(RawAfter(m, p, c), x.hash, After(At(RawAfter(m, p, c), x.hash), RawEvent(x, c), c.raw), h);
    var q := RawAfter(m, Items(p, h), c);
    PutAt(q, x.hash, After(At(q, x.hash), RawEvent(x, c), c.raw), h);
  }

  lemma DeferOwnNext(m: map<Hash, Entry>, p: seq<Scored>, s: Scored, h: Hash, now: real, c: Config)
    requires DeferOwn(m, p, h, now, c)
    ensures DeferOwn(m, p + [s], h, now, c)
  {
    hide Rows, Scorings, After, Keeps, Put, At, DeferAfter, DeferKept, DeferEvent;
    AppendScored(p, s, m, h, now, c);
    AppendScored(Scorings(p, h), s, m, h, now, c);
    AppendRow(DeferKept(m, p, now, c), RowOf(s, c), h);
    var b, q, k := DeferAfter(m, p, now, c), DeferAfter(m, Scorings(p, h), now, c), s.item.hash;
    PutAt(b, k, After(At(b, k), DeferEvent(s, now, c), c.defer), h);
    PutAt(q, k, After(At(q, k), DeferEvent(s, now, c), c.defer), h);
  }

  /** A transaction's part of a batch depends on its own rows only. */
  lemma {:induction false} RawProjects(m: map<Hash, Entry>, xs: seq<Item>, h: Hash, c: Config)
    ensures RawOwn(m, xs, h, c)
  {
    if xs != [] {
      hide RawOwn;
      RawProjects(m, xs[..|xs| - 1], h, c);
      RawOwnNext(m, xs[..|xs| - 1], xs[|xs| - 1], h, c);
      assert xs == xs[..|xs| - 1] + [xs[|xs| - 1]];
    }
  }

  lemma {:induction false} DeferProjects(m: map<Hash, Entry>, ss: seq<Scored>, h: Hash, now: real, c: Config)
    ensures DeferOwn(m, ss, h, now, c)
  {
    if ss != [] {
      hide DeferOwn;
      DeferProjects(m, ss[..|ss| - 1], h, now, c);
      DeferOwnNext(m, ss[..|ss| - 1], ss[|ss| - 1], h, now, c);
      assert ss == ss[..|ss| - 1] + [ss[|ss| - 1]];
    }
  }

  /** One poll of a transaction with budgets `r` and `d`. */
  predicate Passes(r: Option<Entry>, x: Item, c: Config) {
    Keeps(r, RawEvent(x, c), c.raw)
  }

  predicate Writes(r: Option<Entry>, d: Option<Entry>, x: Item, now: real, c: Config) {
    Passes(r, x, c) && Keeps(d, DeferEvent(Resolved(x, c), now, c), c.defer)
  }

  function NextRaw(r: Option<Entry>, x: Item, c: Config): Option<Entry> {
    After(r, RawEvent(x, c), c.raw)
  }

  function NextDefer(r: Option<Entry>, d: Option<Entry>, x: Item, now: real, c: Config): Option<Entry> {
    if Passes(r, x, c) then After(d, DeferEvent(Resolved(x, c), now, c), c.defer) else d
  }

  lemma OneInBatch(m: map<Hash, Entry>, x: Item, c: Config)
    ensures At(RawAfter(m, [x], c), x.hash) == NextRaw(At(m, x.hash), x, c)
    ensures RawKept(m, [x], c) == if Passes(At(m, x.hash), x, c) then [Resolved(x, c)] else []
    ensures RawAfter(m, [], c) == m && RawKept(m, [], c) == []
  {
    assert [x][..0] == [];
  }

  lemma OneStaged(m: map<Hash, Entry>, s: Scored, now: real, c: Config)
    ensures At(DeferAfter(m, [s], now, c), s.item.hash) == After(At(m, s.item.hash), DeferEvent(s, now, c), c.defer)
    ensures DeferKept(m, [s], now, c)
            == if Keeps(At(m, s.item.hash), DeferEvent(s, now, c), c.defer) then [RowOf(s, c)] else []
    ensures DeferAfter(m, [], now, c) == m && DeferKept(m, [], now, c) == []
  {
    assert [s][..0] == [];
  }

  lemma {:induction false} ItemsMatch(xs: seq<Item>, h: Hash)
    ensures forall i :: 0 <= i < |Items(xs, h)| ==> Items(xs, h)[i].hash == h
  {
    if xs != [] { ItemsMatch(xs[..|xs| - 1], h); }
  }

  lemma {:induction false} RowsJoin(a: seq<ScoreRow>, b: seq<ScoreRow>, h: Hash)
    ensures Rows(a + b, h) == Rows(a, h) + Rows(b, h)
  {
    if b == [] {
      assert a + b == a;
    } else {
      RowsJoin(a, b[..|b| - 1], h);
      assert (a + b)[..|a + b| - 1] == a + b[..|b| - 1];
    }
  }

  /** What a tick that fetches a transaction once, and gets through, does to it; and one that does not fetch it. */
  lemma TickOnOne(s: State, t: Tick, x: Item, c: Config)
    requires Items(Fetched(s, t, c), x.hash) == [x] && !t.crashes && t.inserted
    ensures var (n, h) := (Step(s, t, c).0, x.hash);
            && At(n.raw, h) == NextRaw(At(s.raw, h), x, c)
            && At(n.defer, h) == NextDefer(At(s.raw, h), At(s.defer, h), x, t.deferAt, c)
            && (HasRow(n.scores, h) <==> HasRow(s.scores, h) || Writes(At(s.raw, h), At(s.defer, h), x, t.deferAt, c))
  {
    hide Step, RawAfter, RawKept, DeferAfter, DeferKept, After, Keeps, RawEvent, DeferEvent, RowOf, Fetched, HasRow,
        Items, Scorings, Rows;
    var h := x.hash;
    var ss := Staged(s, t, c);
    StepParts(s, t, c);
    RawProjects(s.raw, Fetched(s, t, c), h, c);
    OneInBatch(s.raw, x, c);
    DeferProjects(s.defer, ss, h, t.deferAt, c);
    OneStaged(s.defer, Resolved(x, c), t.deferAt, c);
    RowsTell(s.scores, h);
    RowsTell(s.scores + Written(s, t, c), h);
    RowsJoin(s.scores, Written(s, t, c), h);
  }

  lemma NoneOfIt(h: Hash)
    ensures Scorings([], h) == [] && Rows([], h) == []
  {}

  lemma TickElsewhere(s: State, t: Tick, h: Hash, c: Config)
    requires Items(Fetched(s, t, c), h) == []
    ensures var n := Step(s, t, c).0;
            && At(n.raw, h) == At(s.raw, h) && At(n.defer, h) == At(s.defer, h)
            && (HasRow(n.scores, h) <==> HasRow(s.scores, h))
  {
    hide Step, RawAfter, RawKept, DeferAfter, DeferKept, Fetched, HasRow, Items, Scorings, Rows;
    StepParts(s, t, c);
    RawProjects(s.raw, Fetched(s, t, c), h, c);
    NothingHappens(s, t.deferAt, c);
    NoneOfIt(h);
    DeferProjects(s.defer, Staged(s, t, c), h, t.deferAt, c);
    RowsTell(s.scores, h);
    RowsTell(s.scores + Written(s, t, c), h);
    RowsJoin(s.scores, Written(s, t, c), h);
  }

  lemma {:induction false} ItemsTell(xs: seq<Item>, h: Hash)
    ensures Fetches(xs, h) <==> Items(xs, h) != []
  {
    if xs != [] {
      var p := xs[..|xs| - 1];
      ItemsTell(p, h);
      if Fetches(p, h) { var i :| 0 <= i < |p| && p[i].hash == h; assert xs[i].hash == h; }
      if Fetches(xs, h) && xs[|p|].hash != h {
        var i :| 0 <= i < |xs| && xs[i].hash == h;
        assert p[i].hash == h;
      }
    }
  }

  // ---------------------------------------------------------------- out of reach

  /** The wall clock does not fall over the ticks, and no query returns a transaction older than its bound. */
  ghost predicate Truthful(s: State, ts: seq<Tick>, h: Hash, ingested: real, c: Config) {
    && (forall i, j :: 0 <= i < j < |ts| ==> ts[i].wall <= ts[j].wall)
    && (forall i :: 0 <= i < |ts| ==> KeepsBound(Run(s, ts[..i], c), ts[i], h, ingested, c))
  }

  lemma OutOfReach(s: State, ts: seq<Tick>, i: nat, h: Hash, ingested: real, c: Config)
    requires c.window > 0.0 && s.watermark.Some? && s.watermark.value > ingested && i < |ts|
    requires ts[0].wall - c.window > ingested && Truthful(s, ts, h, ingested, c)
    ensures !Fetches(Fetched(Run(s, ts[..i], c), ts[i], c), h)
  {
    hide Run, Fetched;
    assert KeepsBound(Run(s, ts[..i], c), ts[i], h, ingested, c);
    assert ts[..i][..0] == [];
    RunNone(s, c);
    WatermarkOnlyRises(s, ts[..i], 0, c);
    assert i > 0 ==> ts[0].wall <= ts[i].wall;
  }

  /** A transaction that the cursor has passed and a bounded rescan no longer reaches is never fetched again, and so
      never scored. */
  lemma {:induction false} BeyondReach(s: State, ts: seq<Tick>, h: Hash, ingested: real, c: Config)
    requires c.window > 0.0 && s.watermark.Some? && s.watermark.value > ingested
    requires ts != [] ==> ts[0].wall - c.window > ingested && Truthful(s, ts, h, ingested, c)
    ensures forall i :: 0 <= i < |ts| ==> !Fetches(Fetched(Run(s, ts[..i], c), ts[i], c), h)
    ensures HasRow(Run(s, ts, c).scores, h) <==> HasRow(s.scores, h)
  {
    if ts != [] {
      hide Run, Fetched, HasRow, Step, KeepsBound, Fetches, Items;
      forall i | 0 <= i < |ts| ensures !Fetches(Fetched(Run(s, ts[..i], c), ts[i], c), h) {
        OutOfReach(s, ts, i, h, ingested, c);
      }
      var p := ts[..|ts| - 1];
      forall i | 0 <= i < |p| ensures KeepsBound(Run(s, p[..i], c), p[i], h, ingested, c) {
        assert p[..i] == ts[..i];
        assert KeepsBound(Run(s, ts[..i], c), ts[i], h, ingested, c);
      }
      BeyondReach(s, p, h, ingested, c);
      RunStep(s, ts, c);
      ItemsTell(Fetched(Run(s, p, c), ts[|p|], c), h);
      TickElsewhere(Run(s, p, c), ts[|p|], h, c);
    } else {
      RunNone(s, c);
    }
  }

  // ---------------------------------------------------------------- what the cursor passes over

  /** The query's answer: candidates only, the oldest first, all of them unless the batch is full. */
  ghost predicate OldestFirst(txs: map<Hash, Tx>, rows: seq<ScoreRow>, since: Option<real>, batch: nat,
                              xs: seq<Item>) {
    && |xs| <= batch
    && (forall i :: 0 <= i < |xs| ==>
          Candidate(txs, rows, xs[i].hash, since) && xs[i].ingested == txs[xs[i].hash].ingested)
    && (forall h :: Candidate(txs, rows, h, since) && !Fetches(xs, h) ==>
          |xs| == batch && forall i :: 0 <= i < |xs| ==> xs[i].ingested <= txs[h].ingested)
  }

  /** The rows a tick works on, if it gets any, are such an answer. */
  ghost predicate Answered(txs: map<Hash, Tx>, s: State, t: Tick, batch: nat, c: Config) {
    Got(s, t, c).Some? ==> OldestFirst(txs, s.scores, Bound(s, t, c), batch, Got(s, t, c).value)
  }

  lemma {:induction false} NewestIsOne(xs: seq<Item>) returns (i: nat)
    requires xs != []
    ensures i < |xs| && xs[i].ingested == Newest(xs)
  {
    i := |xs| - 1;
    if |xs| > 1 && xs[i].ingested <= Newest(xs[..i]) { i := NewestIsOne(xs[..i]); }
  }

  /** A cursor that moves stays at least the overlap behind every candidate the query did not return. */
  lemma CursorPassesNoOther(txs: map<Hash, Tx>, s: State, t: Tick, batch: nat, h: Hash, c: Config)
    requires Answered(txs, s, t, batch, c)
    requires Candidate(txs, s.scores, h, Bound(s, t, c)) && !Fetches(Fetched(s, t, c), h)
    ensures var n := Step(s, t, c).0;
            n.watermark != s.watermark ==> n.watermark.Some? && n.watermark.value + c.overlap <= txs[h].ingested
  {
    hide Step, Candidate, Bound, Newest, DeferKept, RawKept;
    WatermarkMoves(s, t, c);
    if Step(s, t, c).0.watermark != s.watermark { var i := NewestIsOne(Fetched(s, t, c)); }
  }

  predicate Past(w: Option<real>, ingested: real) {
    w.Some? && w.value > ingested
  }

  /** A rescan bounded to a time after this one. */
  predicate RescanMisses(s: State, t: Tick, ingested: real, c: Config) {
    Due(s, t, c) && !FallsBack(s, t, c) && c.window > 0.0 && t.wall - c.window > ingested
  }

  /** The transaction is in the table of tick `i` with this ingestion time and its inputs, the tick's query is answered
      from that table, and it is not a rescan that misses it. */
  ghost predicate InSight(s: State, ts: seq<Tick>, tables: seq<map<Hash, Tx>>, i: nat, batch: nat, h: Hash,
                          ingested: real, c: Config)
    requires i < |ts| == |tables|
  {
    var b := Run(s, ts[..i], c);
    && h in tables[i] && tables[i][h].ingested == ingested && Ready(tables[i][h], None)
    && Stamped(tables[i], b.scores) && Answered(tables[i], b, ts[i], batch, c) && !RescanMisses(b, ts[i], ingested, c)
  }

  ghost predicate EverFetches(s: State, ts: seq<Tick>, h: Hash, c: Config) {
    exists i :: 0 <= i < |ts| && Fetches(Fetched(Run(s, ts[..i], c), ts[i], c), h)
  }

  lemma EverFetchesNext(s: State, ts: seq<Tick>, h: Hash, c: Config)
    requires ts != []
    ensures EverFetches(s, ts, h, c) <==>
              EverFetches(s, ts[..|ts| - 1], h, c) || Fetches(Fetched(Run(s, ts[..|ts| - 1], c), ts[|ts| - 1], c), h)
  {
    hide Run, Fetched, Fetches;
    var p := ts[..|ts| - 1];
    forall i | 0 <= i < |p| ensures p[..i] == ts[..i] {}
    if EverFetches(s, p, h, c) {
      var i :| 0 <= i < |p| && Fetches(Fetched(Run(s, p[..i], c), p[i], c), h);
      assert Fetches(Fetched(Run(s, ts[..i], c), ts[i], c), h);
    }
    if EverFetches(s, ts, h, c) {
      var i :| 0 <= i < |ts| && Fetches(Fetched(Run(s, ts[..i], c), ts[i], c), h);
      assert i < |p| ==> Fetches(Fetched(Run(s, p[..i], c), p[i], c), h);
    }
  }

  /** One tick: a row-less transaction that the cursor is not past is a candidate of its query. */
  lemma IsCandidate(txs: map<Hash, Tx>, s: State, t: Tick, h: Hash, c: Config)
    requires h in txs && Ready(txs[h], None) && Stamped(txs, s.scores) && !HasRow(s.scores, h)
    requires !Past(s.watermark, txs[h].ingested) && !RescanMisses(s, t, txs[h].ingested, c)
    ensures Candidate(txs, s.scores, h, Bound(s, t, c))
  {
    hide Stamped, HasRow, Ready, Candidate;
    UnboundedCandidate(txs, s.scores, h);
    if Bound(s, t, c).Some? { BoundedPollIsExact(txs, s.scores, h, Bound(s, t, c).value); }
  }

  /** Over every run in which no bounded rescan misses it, the cursor passes a row-less transaction only after it was
      fetched. */
  lemma {:induction false} PassedOnlyIfFetched(s: State, ts: seq<Tick>, tables: seq<map<Hash, Tx>>, batch: nat, h: Hash,
                                               ingested: real, c: Config)
    requires c.overlap >= 0.0 && !HasRow(s.scores, h) && !Past(s.watermark, ingested) && |tables| == |ts|
    requires forall i :: 0 <= i < |ts| ==> InSight(s, ts, tables, i, batch, h, ingested, c)
    ensures Past(Run(s, ts, c).watermark, ingested) || HasRow(Run(s, ts, c).scores, h) ==> EverFetches(s, ts, h, c)
  {
    hide Run, Step, Fetched, Fetches, EverFetches, HasRow, Answered, Candidate, Bound, Items, RescanMisses, Ready,
        Stamped;
    if ts == [] {
      RunNone(s, c);
    } else {
      var k := |ts| - 1;
      var p, t := ts[..k], ts[k];
      forall i | 0 <= i < k ensures InSight(s, p, tables[..k], i, batch, h, ingested, c) {
        assert p[..i] == ts[..i];
        assert InSight(s, ts, tables, i, batch, h, ingested, c);
      }
      PassedOnlyIfFetched(s, p, tables[..k], batch, h, ingested, c);
      EverFetchesNext(s, ts, h, c);
      RunStep(s, ts, c);
      if !EverFetches(s, ts, h, c) {
        var b := Run(s, p, c);
        assert InSight(s, ts, tables, k, batch, h, ingested, c);
        IsCandidate(tables[k], b, t, h, c);
        CursorPassesNoOther(tables[k], b, t, batch, h, c);
        ItemsTell(Fetched(b, t, c), h);
        TickElsewhere(b, t, h, c);
      }
    }
  }

  /** A bounded rescan that misses a transaction by more than the overlap takes the cursor past it whenever it moves the
      cursor at all. */
  lemma RescanSkips(txs: map<Hash, Tx>, s: State, t: Tick, batch: nat, ingested: real, c: Config)
    requires Answered(txs, s, t, batch, c) && RescanMisses(s, t, ingested + c.overlap, c)
    ensures Step(s, t, c).0.watermark != s.watermark ==> Past(Step(s, t, c).0.watermark, ingested)
  {
    hide Step, Newest, DeferKept, RawKept;
    WatermarkMoves(s, t, c);
    if Step(s, t, c).0.watermark != s.watermark { var i := NewestIsOne(Fetched(s, t, c)); }
  }

  // Two ticks from start-up after which a transaction is lost.

  const LATE: Hash := "late"

  /** A rescan every minute that looks back five, an overlap of half a minute, no raw store. */
  const TUNING := Config(true, 60.0, 300.0, 30.0, false, Pacing(3, 10.0), true, Pacing(3, 10.0))

  /** Its payload cannot be read, so it is deferred; the other is scored and takes the cursor past it. */
  const DEFERRED := Item(LATE, 900.0, Unreadable, false, true, 0.0, false, 1000.0, [], [])
  const PROMPT := Item("prompt", 990.0, Json, false, true, 0.0, false, 1000.0, [], [])

  function FirstRescan(): Tick {
    Tick(0.0, 1000.0, 0.0, 0.0, 1.0, Some([DEFERRED, PROMPT]), None, false, true, true)
  }

  /** The next rescan looks back to 1100 and finds nothing. */
  function NextRescan(): Tick {
    Tick(400.0, 1400.0, 400.0, 400.0, 401.0, Some([]), None, false, true, true)
  }

  lemma FirstRescanSorts()
    ensures RawAfter(map[], [DEFERRED, PROMPT], TUNING) == map[LATE := Entry(1, 0.0)]
    ensures RawKept(map[], [DEFERRED, PROMPT], TUNING) == [Resolved(PROMPT, TUNING)]
  {
    var none: map<Hash, Entry> := map[];
    OneInBatch(none, DEFERRED, TUNING);
    assert RawAfter(none, [DEFERRED], TUNING) == map[LATE := Entry(1, 0.0)];
    assert [DEFERRED] + [PROMPT] == [DEFERRED, PROMPT];
    AppendItem([DEFERRED], PROMPT, none, LATE, TUNING);
    PutSame(map[LATE := Entry(1, 0.0)], PROMPT.hash);
  }

  lemma FirstRescanDone()
    ensures Step(START, FirstRescan(), TUNING)
         == (State(Some(960.0), Some(1.0), map[LATE := Entry(1, 0.0)], map[], [ScoreRow(PROMPT, true, UNMARKED)]),
             Returned(2))
    ensures Since(START, FirstRescan(), TUNING) == Some(700.0)
  {
    var none: map<Hash, Entry> := map[];
    FirstRescanSorts();
    OneStaged(none, Resolved(PROMPT, TUNING), 0.0, TUNING);
    PutSame(none, PROMPT.hash);
    assert DeferAfter(none, [Resolved(PROMPT, TUNING)], 0.0, TUNING) == none;
    assert Newest([DEFERRED, PROMPT]) == 990.0;
    hide RawAfter, RawKept, DeferAfter, DeferKept, Newest;
  }

  /** The two ticks, and the state they leave. */
  function TwoRescans(): seq<Tick> {
    [FirstRescan(), NextRescan()]
  }

  function AfterRescans(): State {
    State(Some(960.0), Some(401.0), map[LATE := Entry(1, 0.0)], map[], [ScoreRow(PROMPT, true, UNMARKED)])
  }

  lemma TwoRescansDone()
    ensures Run(START, TwoRescans(), TUNING) == AfterRescans() && !HasRow(AfterRescans().scores, LATE)
  {
    FirstRescanDone();
    NextRescanDone();
    hide Step;
    var two := TwoRescans();
    assert two[..1] == [FirstRescan()] && two[..1][..0] == [];
    RunNone(START, TUNING);
    RunStep(START, two[..1], TUNING);
    RunStep(START, two, TUNING);
  }

  lemma NextRescanDone()
    ensures Step(AfterRescans().(lastRescan := Some(1.0)), NextRescan(), TUNING) == (AfterRescans(), Returned(0))
    ensures Since(AfterRescans().(lastRescan := Some(1.0)), NextRescan(), TUNING) == Some(1100.0)
  {}

  /** After them the transaction has no row, and no later tick fetches it or writes it one. */
  lemma {:induction false} TransactionLost(ts: seq<Tick>)
    requires ts != [] ==> ts[0].wall >= NextRescan().wall
    requires Truthful(Run(START, TwoRescans(), TUNING), ts, LATE, DEFERRED.ingested, TUNING)
    ensures var s := Run(START, TwoRescans(), TUNING);
            && !HasRow(Run(s, ts, TUNING).scores, LATE)
            && forall i :: 0 <= i < |ts| ==> !Fetches(Fetched(Run(s, ts[..i], TUNING), ts[i], TUNING), LATE)
  {
    hide Run, Fetched, Fetches, HasRow, Truthful, TwoRescans;
    TwoRescansDone();
    BeyondReach(AfterRescans(), ts, LATE, DEFERRED.ingested, TUNING);
  }

  // One tick from start-up, on a transaction that waited for longer than a rescan looks back.

  const OLD: Hash := "old"

  function Backlog(): map<Hash, Tx> {
    map[OLD := Tx(500.0, 0, None), PROMPT.hash := Tx(PROMPT.ingested, 0, None)]
  }

  function BacklogRescan(): Tick {
    FirstRescan().(poll := Some([PROMPT]))
  }

  lemma BacklogRescanDone()
    ensures Answered(Backlog(), START, BacklogRescan(), 100, TUNING)
    ensures var n := Step(START, BacklogRescan(), TUNING).0;
            n.watermark == Some(960.0) && n.scores == [ScoreRow(PROMPT, true, UNMARKED)]
  {
    var none: map<Hash, Entry> := map[];
    OneInBatch(none, PROMPT, TUNING);
    OneStaged(none, Resolved(PROMPT, TUNING), 0.0, TUNING);
    assert Newest([PROMPT]) == 990.0;
    assert [PROMPT][0].hash == PROMPT.hash;
  }

  /** It is ready and has no row, but the first rescan does not reach it, and no tick ever fetches it. */
  lemma {:induction false} BacklogLost(ts: seq<Tick>)
    requires ts != [] ==> ts[0].wall >= BacklogRescan().wall
    requires Truthful(Step(START, BacklogRescan(), TUNING).0, ts, OLD, Backlog()[OLD].ingested, TUNING)
    ensures Answered(Backlog(), START, BacklogRescan(), 100, TUNING) && Candidate(Backlog(), START.scores, OLD, None)
    ensures var s := Step(START, BacklogRescan(), TUNING).0;
            && !HasRow(Run(s, ts, TUNING).scores, OLD)
            && forall i :: 0 <= i < |ts| ==> !Fetches(Fetched(Run(s, ts[..i], TUNING), ts[i], TUNING), OLD)
  {
    hide Run, Fetched, Fetches, Truthful, Step, Answered;
    BacklogRescanDone();
    BeyondReach(Step(START, BacklogRescan(), TUNING).0, ts, OLD, Backlog()[OLD].ingested, TUNING);
  }

  /** An empty payload column that is not flagged: its transaction is scored without its payload, and the row does not
      say so. */
  lemma SilentRowWritten()
    ensures var x := Item("silent", 990.0, Absent, false, true, 0.0, true, 1000.0, [], []);
            var s := Run(START, [FirstRescan().(poll := Some([x]))], TUNING);
            s.scores == [ScoreRow(x, false, UNMARKED)] && !Complete(s.scores[0]) && !Marked(s.scores[0])
  {
    var x := Item("silent", 990.0, Absent, false, true, 0.0, true, 1000.0, [], []);
    var t := FirstRescan().(poll := Some([x]));
    OneInBatch(map[], x, TUNING);
    OneStaged(map[], Resolved(x, TUNING), 0.0, TUNING);
    StepParts(START, t, TUNING);
    assert [t][..0] == [];
    RunNone(START, TUNING);
    RunStep(START, [t], TUNING);
  }

  // The measure.

  function Tries(p: Pacing): int {
    if p.max > 1 then p.max else 1
  }

  /** How many more polls a transaction without a row can take. */
  function Left(r: Option<Entry>, d: Option<Entry>, c: Config): int {
    (Tries(c.defer) - 1 - Counted(d)) * Tries(c.raw) + Tries(c.raw) - Counted(r)
  }

  predicate WithinBudget(e: Option<Entry>, p: Pacing) {
    0 <= Counted(e) < Tries(p)
  }

  predicate Worst(x: Item, c: Config) {
    RawEvent(x, c).Fails? && c.defers && Incomplete(x)
  }

  lemma LeftDrops(r: int, d: int, R: int, D: int)
    requires 0 <= r < R && 0 <= d < D
    ensures (D - 1 - d) * R + R - r >= 1
    ensures (D - 1 - (d + 1)) * R + R == (D - 1 - d) * R
    ensures (D - 1) * R + R == D * R
    ensures d < D - 1 ==> (D - 1 - d) * R + R - r > R - r
  {
    assert (D - 1 - d) * R >= 0;
  }

  /** Each poll outside both retry windows writes the row or uses up one of the polls left; with every recovery and
      every scoring failing, it uses up exactly one. */
  lemma PollSpends(r: Option<Entry>, d: Option<Entry>, x: Item, now: real, c: Config)
    requires WithinBudget(r, c.raw) && WithinBudget(d, c.defer)
    requires !InWindow(r, x.readAt, c.raw) && !InWindow(d, now, c.defer)
    ensures var (r2, d2) := (NextRaw(r, x, c), NextDefer(r, d, x, now, c));
            && WithinBudget(r2, c.raw) && WithinBudget(d2, c.defer) && Left(r, d, c) >= 1
            && (Writes(r, d, x, now, c) || Left(r2, d2, c) <= Left(r, d, c) - 1)
            && (Worst(x, c) ==> if Left(r, d, c) == 1 then Writes(r, d, x, now, c)
                                else !Writes(r, d, x, now, c) && Left(r2, d2, c) == Left(r, d, c) - 1)
  {
    LeftDrops(Counted(r), Counted(d), Tries(c.raw), Tries(c.defer));
  }

  /** A budget that started a tick as `r` and stands at `e`: `all` says every event so far was dropped. */
  predicate Spending(r: Option<Entry>, e: Option<Entry>, end: real, p: Pacing, any: bool, all: bool) {
    && WithinBudget(e, p) && (e == r || e.None? || e.value.at <= end)
    && (if any then all ==> Counted(e) >= Counted(r) + 1 else e == r)
  }

  lemma EventSpends(r: Option<Entry>, e: Option<Entry>, v: Event, end: real, p: Pacing, any: bool, all: bool)
    requires Spending(r, e, end, p, any, all) && (v.Fails? ==> v.at <= end && !InWindow(r, v.at, p))
    ensures Spending(r, After(e, v, p), end, p, true, (all || !any) && !Keeps(e, v, p))
  {}

  /** However many rows of one transaction a batch holds, either one of them goes on to scoring, or its payload budget
      has counted at least one attempt. */
  lemma {:induction false} RawMany(m: map<Hash, Entry>, xs: seq<Item>, h: Hash, end: real, c: Config)
    requires WithinBudget(At(m, h), c.raw)
    requires forall k :: 0 <= k < |xs| ==>
               xs[k].hash == h && xs[k].readAt <= end && !InWindow(At(m, h), xs[k].readAt, c.raw)
    ensures Spending(At(m, h), At(RawAfter(m, xs, c), h), end, c.raw, xs != [], RawKept(m, xs, c) == [])
    ensures forall k :: 0 <= k < |RawKept(m, xs, c)| ==> RawKept(m, xs, c)[k].item.hash == h
  {
    hide InWindow;
    NothingKept(m, c);
    if xs != [] {
      hide RawAfter, RawKept, After, Keeps, Spending, WithinBudget, At, Put;
      var p, x := xs[..|xs| - 1], xs[|xs| - 1];
      RawMany(m, p, h, end, c);
      AppendItem(p, x, m, h, c);
      assert xs == p + [x];
      var b := RawAfter(m, p, c);
      EventSpends(At(m, h), At(b, h), RawEvent(x, c), end, c.raw, p != [], RawKept(m, p, c) == []);
      PutAt(b, h, After(At(b, h), RawEvent(x, c), c.raw), h);
    }
  }

  lemma NothingKept(m: map<Hash, Entry>, c: Config)
    ensures RawAfter(m, [], c) == m && RawKept(m, [], c) == []
  {}

  lemma NothingStaged(m: map<Hash, Entry>, now: real, c: Config)
    ensures DeferAfter(m, [], now, c) == m && DeferKept(m, [], now, c) == []
  {}

  /** And of those that go on, either one is written, or its scoring budget has counted at least one. */
  lemma {:induction false} DeferMany(m: map<Hash, Entry>, ss: seq<Scored>, h: Hash, now: real, c: Config)
    requires WithinBudget(At(m, h), c.defer) && !InWindow(At(m, h), now, c.defer)
    requires forall k :: 0 <= k < |ss| ==> ss[k].item.hash == h
    ensures Spending(At(m, h), At(DeferAfter(m, ss, now, c), h), now, c.defer, ss != [], DeferKept(m, ss, now, c) == [])
  {
    hide InWindow;
    NothingStaged(m, now, c);
    if ss != [] {
      hide DeferAfter, DeferKept, After, Keeps, Spending, WithinBudget, At, Put;
      var p, s := ss[..|ss| - 1], ss[|ss| - 1];
      DeferMany(m, p, h, now, c);
      AppendScored(p, s, m, h, now, c);
      assert ss == p + [s];
      var b := DeferAfter(m, p, now, c);
      EventSpends(At(m, h), At(b, h), DeferEvent(s, now, c), now, c.defer, p != [], DeferKept(m, p, now, c) == []);
      PutAt(b, h, After(At(b, h), DeferEvent(s, now, c), c.defer), h);
    }
  }

  lemma LeftSpent(r: int, d: int, r2: int, d2: int, R: int, D: int)
    requires 0 <= r < R && 0 <= d < D && 0 <= r2 < R && 0 <= d2 < D
    requires d2 >= d + 1 || (d2 == d && r2 >= r + 1)
    ensures (D - 1 - d2) * R + R - r2 <= (D - 1 - d) * R + R - r - 1
  {
    if d2 >= d + 1 {
      assert (d2 - d - 1) * R >= 0;
      assert (D - 1 - d2) * R == (D - 1 - d) * R - R - (d2 - d - 1) * R;
    }
  }

  /** A tick that fetches a transaction, outside both its windows, and gets through, writes it a row or uses up one of
      the polls left. */
  lemma TickSpends(s: State, t: Tick, h: Hash, c: Config)
    requires var xs := Items(Fetched(s, t, c), h);
             xs != [] && forall k :: 0 <= k < |xs| ==>
                 xs[k].readAt <= t.end && !InWindow(At(s.raw, h), xs[k].readAt, c.raw)
    requires !t.crashes && t.inserted && !InWindow(At(s.defer, h), t.deferAt, c.defer) && t.deferAt <= t.end
    requires WithinBudget(At(s.raw, h), c.raw) && WithinBudget(At(s.defer, h), c.defer)
    ensures var n := Step(s, t, c).0;
            && WithinBudget(At(n.raw, h), c.raw) && WithinBudget(At(n.defer, h), c.defer)
            && (At(n.raw, h) == At(s.raw, h) || At(n.raw, h).None? || At(n.raw, h).value.at <= t.end)
            && (At(n.defer, h) == At(s.defer, h) || At(n.defer, h).None? || At(n.defer, h).value.at <= t.end)
            && (HasRow(s.scores, h) ==> HasRow(n.scores, h))
            && (HasRow(n.scores, h)
                || Left(At(n.raw, h), At(n.defer, h), c) <= Left(At(s.raw, h), At(s.defer, h), c) - 1)
  {
    hide Step, RawAfter, RawKept, DeferAfter, DeferKept, InWindow, Fetched, HasRow, Items, Scorings, Rows;
    var xs, ss := Items(Fetched(s, t, c), h), Staged(s, t, c);
    StepParts(s, t, c);
    ItemsMatch(Fetched(s, t, c), h);
    RawProjects(s.raw, Fetched(s, t, c), h, c);
    RawMany(s.raw, xs, h, t.end, c);
    DeferProjects(s.defer, ss, h, t.deferAt, c);
    DeferMany(s.defer, Scorings(ss, h), h, t.deferAt, c);
    NothingStaged(s.defer, t.deferAt, c);
    RowsTell(s.scores, h);
    RowsTell(s.scores + Written(s, t, c), h);
    RowsJoin(s.scores, Written(s, t, c), h);
    var n := Step(s, t, c).0;
    if !HasRow(n.scores, h) {
      LeftSpent(Counted(At(s.raw, h)), Counted(At(s.defer, h)), Counted(At(n.raw, h)), Counted(At(n.defer, h)),
                Tries(c.raw), Tries(c.defer));
    }
  }

  /** Once a payload is recovered from the raw store its attempts count from the start again, and so do those at scoring
      once every scorer and enrichment ran. */
  lemma SuccessResets(s: State, t: Tick, x: Item, c: Config)
    requires Items(Fetched(s, t, c), x.hash) == [x]
    ensures var n := Step(s, t, c).0;
            && (x.payload.Unreadable? && c.rawStore && x.dated && x.stored ==> x.hash !in n.raw)
            && (x.payload.Json? && x.scorersFailed == [] && x.enrichmentsFailed == [] && c.defers && !t.crashes ==>
                  x.hash !in n.defer)
            && (x.payload.Json? && t.inserted && x.scorersFailed == [] && x.enrichmentsFailed == [] && !t.crashes ==>
                  HasRow(n.scores, x.hash))
  {
    hide Step, RawAfter, RawKept, DeferAfter, DeferKept, Fetched, HasRow, Items, Scorings, Rows;
    var h, ss := x.hash, Staged(s, t, c);
    StepParts(s, t, c);
    RawProjects(s.raw, Fetched(s, t, c), h, c);
    OneInBatch(s.raw, x, c);
    DeferProjects(s.defer, ss, h, t.deferAt, c);
    OneStaged(s.defer, Resolved(x, c), t.deferAt, c);
    RowsTell(s.scores + Written(s, t, c), h);
    RowsJoin(s.scores, Written(s, t, c), h);
  }

  /** A failed insert gives everything back: the poll that would have written a degraded row leaves the transaction
      without one and with both budgets unspent. */
  lemma FailedInsertStartsOver(s: State, t: Tick, x: Item, c: Config)
    requires Items(Fetched(s, t, c), x.hash) == [x] && !t.crashes && !t.inserted && Worst(x, c)
    requires Writes(At(s.raw, x.hash), At(s.defer, x.hash), x, t.deferAt, c)
    ensures var (n, h) := (Step(s, t, c).0, x.hash);
            && (HasRow(n.scores, h) <==> HasRow(s.scores, h))
            && Left(At(n.raw, h), At(n.defer, h), c) == Tries(c.raw) * Tries(c.defer)
  {
    hide Step, RawAfter, RawKept, DeferAfter, DeferKept, Fetched, HasRow, Items, Scorings, Rows;
    var h, ss := x.hash, Staged(s, t, c);
    StepParts(s, t, c);
    RawProjects(s.raw, Fetched(s, t, c), h, c);
    OneInBatch(s.raw, x, c);
    DeferProjects(s.defer, ss, h, t.deferAt, c);
    OneStaged(s.defer, Resolved(x, c), t.deferAt, c);
    assert s.scores + [] == s.scores;
    LeftDrops(0, 0, Tries(c.raw), Tries(c.defer));
  }

  /** The rows of transaction `h` that tick `i` of a run fetches. */
  function Polled(s: State, ts: seq<Tick>, i: nat, h: Hash, c: Config): seq<Item>
    requires i < |ts|
  {
    Items(Fetched(Run(s, ts[..i], c), ts[i], c), h)
  }

  function PollCount(s: State, ts: seq<Tick>, h: Hash, c: Config): nat {
    if ts == [] then 0
    else PollCount(s, ts[..|ts| - 1], h, c) + if Polled(s, ts, |ts| - 1, h, c) == [] then 0 else 1
  }

  /** A tick that fetches the transaction, in however many versions, gets through and reads its clocks between its start
      and its end. */
  ghost predicate GetsThrough(s: State, ts: seq<Tick>, i: nat, h: Hash, c: Config)
    requires i < |ts|
  {
    var xs := Polled(s, ts, i, h, c);
    xs != [] ==>
      && !ts[i].crashes && ts[i].inserted && ts[i].start <= ts[i].deferAt <= ts[i].end
      && forall k :: 0 <= k < |xs| ==> ts[i].start <= xs[k].readAt <= ts[i].end
  }

  ghost predicate Apart(s: State, ts: seq<Tick>, i: nat, j: nat, h: Hash, c: Config)
    requires i < j < |ts|
  {
    Polled(s, ts, i, h, c) != [] && Polled(s, ts, j, h, c) != [] ==>
      ts[j].start >= ts[i].end + c.raw.retry && ts[j].start >= ts[i].end + c.defer.retry
  }

  /** The transaction's polls get through and are at least both retry intervals apart; other ticks are arbitrary. */
  ghost predicate WellPolled(s: State, ts: seq<Tick>, h: Hash, c: Config) {
    && (forall i :: 0 <= i < |ts| ==> GetsThrough(s, ts, i, h, c))
    && (forall i, j :: 0 <= i < j < |ts| ==> Apart(s, ts, i, j, h, c))
  }

  lemma PrefixPolls(s: State, ts: seq<Tick>, h: Hash, c: Config)
    requires ts != []
    ensures forall i :: 0 <= i < |ts| - 1 ==> Polled(s, ts[..|ts| - 1], i, h, c) == Polled(s, ts, i, h, c)
    ensures WellPolled(s, ts, h, c) ==> WellPolled(s, ts[..|ts| - 1], h, c)
  {
    hide Run, Items, Fetched;
    var p := ts[..|ts| - 1];
    forall i | 0 <= i < |p| ensures Polled(s, p, i, h, c) == Polled(s, ts, i, h, c) { assert p[..i] == ts[..i]; }
    if WellPolled(s, ts, h, c) {
      forall i | 0 <= i < |p| ensures GetsThrough(s, p, i, h, c) { assert GetsThrough(s, ts, i, h, c); }
      forall i, j | 0 <= i < j < |p| ensures Apart(s, p, i, j, h, c) { assert Apart(s, ts, i, j, h, c); }
    }
  }

  /** A budget entry was last counted by the end of some poll of the run. */
  ghost predicate FromPoll(s: State, ts: seq<Tick>, e: Option<Entry>, h: Hash, c: Config) {
    e.Some? ==> exists i :: 0 <= i < |ts| && Polled(s, ts, i, h, c) != [] && e.value.at <= ts[i].end
  }

  /** The state of one transaction along such a run. */
  ghost predicate OnTrack(s: State, ts: seq<Tick>, h: Hash, c: Config) {
    var n := Run(s, ts, c);
    && FromPoll(s, ts, At(n.raw, h), h, c) && FromPoll(s, ts, At(n.defer, h), h, c)
    && WithinBudget(At(n.raw, h), c.raw) && WithinBudget(At(n.defer, h), c.defer)
    && (!HasRow(n.scores, h) ==>
          Left(At(n.raw, h), At(n.defer, h), c) + PollCount(s, ts, h, c) <= Tries(c.raw) * Tries(c.defer))
  }

  ghost predicate Unseen(s: State, h: Hash) {
    h !in s.raw && h !in s.defer && !HasRow(s.scores, h)
  }

  lemma StaysFromPoll(s: State, ts: seq<Tick>, e: Option<Entry>, h: Hash, c: Config)
    requires ts != [] && FromPoll(s, ts[..|ts| - 1], e, h, c)
    ensures FromPoll(s, ts, e, h, c)
  {
    hide Polled;
    PrefixPolls(s, ts, h, c);
    if e.Some? {
      var p := ts[..|ts| - 1];
      var i :| 0 <= i < |p| && Polled(s, p, i, h, c) != [] && e.value.at <= p[i].end;
      assert Polled(s, ts, i, h, c) != [];
    }
  }

  /** A poll that is far enough from the earlier ones is outside a window they opened. */
  lemma OutsideWindow(s: State, ts: seq<Tick>, e: Option<Entry>, now: real, h: Hash, p: Pacing, c: Config)
    requires ts != [] && WellPolled(s, ts, h, c) && Polled(s, ts, |ts| - 1, h, c) != []
    requires FromPoll(s, ts[..|ts| - 1], e, h, c) && now >= ts[|ts| - 1].start && (p == c.raw || p == c.defer)
    ensures !InWindow(e, now, p)
  {
    hide Polled;
    PrefixPolls(s, ts, h, c);
    if e.Some? {
      var q := ts[..|ts| - 1];
      var i :| 0 <= i < |q| && Polled(s, q, i, h, c) != [] && e.value.at <= q[i].end;
      assert Apart(s, ts, i, |ts| - 1, h, c);
    }
  }

  lemma {:induction false} StaysOnTrack(s: State, ts: seq<Tick>, h: Hash, c: Config)
    requires Unseen(s, h) && WellPolled(s, ts, h, c)
    ensures OnTrack(s, ts, h, c)
  {
    if ts == [] {
      LeftDrops(0, 0, Tries(c.raw), Tries(c.defer));
    } else {
      PrefixPolls(s, ts, h, c);
      StaysOnTrack(s, ts[..|ts| - 1], h, c);
      if Polled(s, ts, |ts| - 1, h, c) == [] { PassedBy(s, ts, h, c); } else { PolledOnce(s, ts, h, c); }
    }
  }

  lemma PolledLast(s: State, ts: seq<Tick>, h: Hash, c: Config)
    requires ts != []
    ensures Polled(s, ts, |ts| - 1, h, c) == Items(Fetched(Run(s, ts[..|ts| - 1], c), ts[|ts| - 1], c), h)
  {}

  lemma RunStep(s: State, ts: seq<Tick>, c: Config)
    requires ts != []
    ensures Run(s, ts, c) == Step(Run(s, ts[..|ts| - 1], c), ts[|ts| - 1], c).0
  {}

  lemma PassedBy(s: State, ts: seq<Tick>, h: Hash, c: Config)
    requires ts != [] && WellPolled(s, ts, h, c) && OnTrack(s, ts[..|ts| - 1], h, c)
    requires Polled(s, ts, |ts| - 1, h, c) == []
    ensures OnTrack(s, ts, h, c)
  {
    hide Step, Run, HasRow, Left, Items, Fetched, FromPoll, WellPolled;
    var p := ts[..|ts| - 1];
    RunStep(s, ts, c);
    TickElsewhere(Run(s, p, c), ts[|ts| - 1], h, c);
    StaysFromPoll(s, ts, At(Run(s, p, c).raw, h), h, c);
    StaysFromPoll(s, ts, At(Run(s, p, c).defer, h), h, c);
  }

  /** The last tick of such a run, fetching the transaction, is outside the windows. */
  lemma OutsideWindows(s: State, ts: seq<Tick>, h: Hash, c: Config)
    requires ts != [] && WellPolled(s, ts, h, c) && OnTrack(s, ts[..|ts| - 1], h, c)
    requires Polled(s, ts, |ts| - 1, h, c) != []
    ensures var (b, t, xs) := (Run(s, ts[..|ts| - 1], c), ts[|ts| - 1], Polled(s, ts, |ts| - 1, h, c));
            && !t.crashes && t.inserted && t.deferAt <= t.end && !InWindow(At(b.defer, h), t.deferAt, c.defer)
            && forall k :: 0 <= k < |xs| ==> xs[k].readAt <= t.end && !InWindow(At(b.raw, h), xs[k].readAt, c.raw)
  {
    hide Run, HasRow, Left, Polled, FromPoll, InWindow;
    var b, t := Run(s, ts[..|ts| - 1], c), ts[|ts| - 1];
    var xs := Polled(s, ts, |ts| - 1, h, c);
    assert GetsThrough(s, ts, |ts| - 1, h, c);
    OutsideWindow(s, ts, At(b.defer, h), t.deferAt, h, c.defer, c);
    forall k | 0 <= k < |xs| ensures !InWindow(At(b.raw, h), xs[k].readAt, c.raw) {
      OutsideWindow(s, ts, At(b.raw, h), xs[k].readAt, h, c.raw, c);
    }
  }

  /** What it does to a transaction it fetches one row of. */
  lemma LastPoll(s: State, ts: seq<Tick>, h: Hash, c: Config) returns (x: Item)
    requires ts != [] && WellPolled(s, ts, h, c) && OnTrack(s, ts[..|ts| - 1], h, c)
    requires |Polled(s, ts, |ts| - 1, h, c)| == 1
    ensures Polled(s, ts, |ts| - 1, h, c) == [x]
    ensures var (b, n, now) := (Run(s, ts[..|ts| - 1], c), Run(s, ts, c), ts[|ts| - 1].deferAt);
            && !InWindow(At(b.raw, h), x.readAt, c.raw) && !InWindow(At(b.defer, h), now, c.defer)
            && At(n.raw, h) == NextRaw(At(b.raw, h), x, c)
            && At(n.defer, h) == NextDefer(At(b.raw, h), At(b.defer, h), x, now, c)
            && (HasRow(n.scores, h) <==> HasRow(b.scores, h) || Writes(At(b.raw, h), At(b.defer, h), x, now, c))
  {
    hide Step, Run, HasRow, Left, Items, Fetched, FromPoll, InWindow, Writes, NextRaw, NextDefer, WellPolled;
    var p, t := ts[..|ts| - 1], ts[|ts| - 1];
    var b := Run(s, p, c);
    RunStep(s, ts, c);
    x := Polled(s, ts, |ts| - 1, h, c)[0];
    ItemsMatch(Fetched(b, t, c), h);
    OutsideWindows(s, ts, h, c);
    TickOnOne(b, t, x, c);
  }

  lemma PolledOnce(s: State, ts: seq<Tick>, h: Hash, c: Config)
    requires ts != [] && WellPolled(s, ts, h, c) && OnTrack(s, ts[..|ts| - 1], h, c)
    requires Polled(s, ts, |ts| - 1, h, c) != []
    ensures OnTrack(s, ts, h, c)
  {
    hide Run, HasRow, Left, Items, Fetched, WellPolled, Polled, InWindow, Step, FromPoll;
    var p, t := ts[..|ts| - 1], ts[|ts| - 1];
    var b := Run(s, p, c);
    OutsideWindows(s, ts, h, c);
    PolledLast(s, ts, h, c);
    RunStep(s, ts, c);
    TickSpends(b, t, h, c);
    StaysFromPoll(s, ts, At(b.raw, h), h, c);
    StaysFromPoll(s, ts, At(b.defer, h), h, c);
    NowFromPoll(s, ts, At(Run(s, ts, c).raw, h), h, c);
    NowFromPoll(s, ts, At(Run(s, ts, c).defer, h), h, c);
  }

  lemma NowFromPoll(s: State, ts: seq<Tick>, e: Option<Entry>, h: Hash, c: Config)
    requires ts != [] && Polled(s, ts, |ts| - 1, h, c) != []
    ensures e.None? || e.value.at <= ts[|ts| - 1].end ==> FromPoll(s, ts, e, h, c)
  {
    hide Polled;
  }

  /** A transaction polled at least both retry intervals apart, in ticks whose inserts succeed, has a row after at most
      raw max times defer max polls: the payload budget starts afresh inside every scoring attempt. */
  lemma DeferralIsBounded(s: State, ts: seq<Tick>, h: Hash, c: Config)
    requires Unseen(s, h) && WellPolled(s, ts, h, c)
    requires PollCount(s, ts, h, c) >= Tries(c.raw) * Tries(c.defer)
    ensures HasRow(Run(s, ts, c).scores, h)
  {
    hide Run, HasRow, WellPolled, FromPoll;
    StaysOnTrack(s, ts, h, c);
    var n := Run(s, ts, c);
    LeftDrops(Counted(At(n.raw, h)), Counted(At(n.defer, h)), Tries(c.raw), Tries(c.defer));
  }

  predicate WorstPoll(xs: seq<Item>, c: Config) {
    |xs| == 1 && Worst(xs[0], c)
  }

  ghost predicate AllWorst(s: State, ts: seq<Tick>, h: Hash, c: Config) {
    forall i :: 0 <= i < |ts| && Polled(s, ts, i, h, c) != [] ==> WorstPoll(Polled(s, ts, i, h, c), c)
  }

  lemma PrefixWorst(s: State, ts: seq<Tick>, h: Hash, c: Config)
    requires ts != [] && AllWorst(s, ts, h, c)
    ensures AllWorst(s, ts[..|ts| - 1], h, c)
  {
    hide Polled, WorstPoll;
    PrefixPolls(s, ts, h, c);
    var p := ts[..|ts| - 1];
    forall i | 0 <= i < |p| && Polled(s, p, i, h, c) != [] ensures WorstPoll(Polled(s, p, i, h, c), c) {
      assert Polled(s, ts, i, h, c) == Polled(s, p, i, h, c);
    }
  }

  /** The bound is reached: while every recovery and every scoring fails, the row appears with exactly that poll. */
  lemma {:induction false} BoundIsExact(s: State, ts: seq<Tick>, h: Hash, c: Config)
    requires Unseen(s, h) && WellPolled(s, ts, h, c) && AllWorst(s, ts, h, c)
    ensures HasRow(Run(s, ts, c).scores, h) <==> PollCount(s, ts, h, c) >= Tries(c.raw) * Tries(c.defer)
    ensures !HasRow(Run(s, ts, c).scores, h) ==>
              Left(At(Run(s, ts, c).raw, h), At(Run(s, ts, c).defer, h), c) + PollCount(s, ts, h, c)
              == Tries(c.raw) * Tries(c.defer)
  {
    if ts == [] {
      LeftDrops(0, 0, Tries(c.raw), Tries(c.defer));
    } else {
      hide HasRow, Left, Items, Fetched, WellPolled, FromPoll, InWindow, Writes, NextRaw, NextDefer, Step, Run, Polled;
      var p, t := ts[..|ts| - 1], ts[|ts| - 1];
      PrefixPolls(s, ts, h, c);
      PrefixWorst(s, ts, h, c);
      BoundIsExact(s, p, h, c);
      StaysOnTrack(s, p, h, c);
      var b := Run(s, p, c);
      if Polled(s, ts, |ts| - 1, h, c) == [] {
        PolledLast(s, ts, h, c);
        RunStep(s, ts, c);
        TickElsewhere(b, t, h, c);
      } else {
        var x := LastPoll(s, ts, h, c);
        PollSpends(At(b.raw, h), At(b.defer, h), x, t.deferAt, c);
      }
    }
  }
}
