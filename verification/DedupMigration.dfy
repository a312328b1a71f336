/** The one-shot migration of a table to the dedup-safe layout: bucketed collapse, verification, exchange and rename,
    and its recovery after a crash (`migrate_table`). */
module DedupMigration {
  /** A logical key: its transaction hash, which selects the bucket, and the other key columns. */
  datatype Key = Key(tx: string, rest: string)

  datatype Row = Row(key: Key, version: int, cells: map<string, string>)

  /** A stored table: whether its engine is the v2 one, whether its count columns are wide, its other columns and
      rows. */
  datatype Table = Table(v2: bool, wide: bool, columns: set<string>, rows: seq<Row>)

  type Catalog = map<string, Table>

  /** What is known beforehand: the names, and the v2 columns with their defaults. */
  datatype Plan = Plan(live: string, mig: string, columns: set<string>, defaults: map<string, string>)

  ghost predicate Sensible(p: Plan, legacy: string) {
    p.live != p.mig && legacy != p.live && legacy != p.mig && p.columns <= p.defaults.Keys
  }

  predicate NeedsRebuild(t: Table) {
    !t.v2 || !t.wide
  }

  function KeysOf(rows: seq<Row>): set<Key> {
    set i | 0 <= i < |rows| :: rows[i].key
  }

  // ---------------------------------------------------------------- the collapse

  /** Row `j` is one of the key's newest. */
  predicate Newest(rows: seq<Row>, j: nat, k: Key, version: int) {
    j < |rows| && rows[j].key == k && rows[j].version == version
  }

  ghost predicate CellFrom(rows: seq<Row>, o: Row, c: string) {
    && c in o.cells
    && exists j: nat ::
         Newest(rows, j, o.key, o.version) && c in rows[j].cells && rows[j].cells[c] == o.cells[c]
  }

  /** `max(version)` and one `argMax` per column: each cell comes from some newest row of the key, each v2-only column
      from its default. */
  ghost predicate Collapses(o: Row, rows: seq<Row>, legacy: set<string>, p: Plan) {
    && (exists j: nat :: Newest(rows, j, o.key, o.version))
    && (forall j :: 0 <= j < |rows| && rows[j].key == o.key ==> rows[j].version <= o.version)
    && o.cells.Keys == p.columns
    && (forall c :: c in p.columns && c in legacy ==> CellFrom(rows, o, c))
    && (forall c :: c in p.columns && c !in legacy ==> c in p.defaults && o.cells[c] == p.defaults[c])
  }

  ghost predicate HasKey(rows: seq<Row>, k: Key) {
    exists i :: 0 <= i < |rows| && rows[i].key == k
  }

  /** One row per key, each the collapse of that key's rows. */
  ghost predicate IsCollapse(rows: seq<Row>, legacy: seq<Row>, columns: set<string>, p: Plan) {
    && (forall i, j :: 0 <= i < j < |rows| ==> rows[i].key != rows[j].key)
    && (forall i :: 0 <= i < |rows| ==> Collapses(rows[i], legacy, columns, p))
    && (forall i :: 0 <= i < |legacy| ==> HasKey(rows, legacy[i].key))
  }

  /** The rows one bucket's INSERT reads. */
  function Where(rows: seq<Row>, hash: string -> nat, n: nat, b: nat): seq<Row>
    requires n > 0
  {
    if rows == [] then []
    else Where(rows[..|rows| - 1], hash, n, b)
         + if hash(rows[|rows| - 1].key.tx) % n == b then [rows[|rows| - 1]] else []
  }

  function Joined(parts: seq<seq<Row>>): seq<Row> {
    if parts == [] then [] else Joined(parts[..|parts| - 1]) + parts[|parts| - 1]
  }

  ghost predicate Has(rows: seq<Row>, r: Row) {
    exists j :: 0 <= j < |rows| && rows[j] == r
  }

  lemma {:induction false} WhereKeeps(rows: seq<Row>, hash: string -> nat, n: nat, b: nat, r: Row)
    requires n > 0
    ensures Has(Where(rows, hash, n, b), r) <==> Has(rows, r) && hash(r.key.tx) % n == b
  {
    if rows != [] {
      var p, x := rows[..|rows| - 1], rows[|rows| - 1];
      WhereKeeps(p, hash, n, b, r);
      var w := Where(p, hash, n, b);
      var all := Where(rows, hash, n, b);
      if Has(p, r) { var j :| 0 <= j < |p| && p[j] == r; assert rows[j] == r; }
      if Has(w, r) { var j :| 0 <= j < |w| && w[j] == r; assert all[j] == r; }
      if x == r && hash(r.key.tx) % n == b { assert all[|w|] == r; }
      if Has(rows, r) && x != r { var j :| 0 <= j < |rows| && rows[j] == r; assert p[j] == r; }
      if Has(all, r) && !(x == r && hash(x.key.tx) % n == b) {
        var j :| 0 <= j < |all| && all[j] == r;
        if j < |w| { assert w[j] == r; }
      }
    }
  }

  /** A key's rows all lie in its bucket, so grouping inside the bucket is grouping the whole table. */
  lemma BucketCollapses(o: Row, rows: seq<Row>, columns: set<string>, p: Plan, hash: string -> nat, n: nat, b: nat)
    requires n > 0 && Collapses(o, Where(rows, hash, n, b), columns, p)
    ensures Collapses(o, rows, columns, p) && hash(o.key.tx) % n == b
  {
    var w := Where(rows, hash, n, b);
    var j: nat :| Newest(w, j, o.key, o.version);
    WhereKeeps(rows, hash, n, b, w[j]);
    assert Has(w, w[j]);
    var i :| 0 <= i < |rows| && rows[i] == w[j];
    assert Newest(rows, i, o.key, o.version);
    forall k | 0 <= k < |rows| && rows[k].key == o.key ensures rows[k].version <= o.version {
      assert Has(rows, rows[k]);
      WhereKeeps(rows, hash, n, b, rows[k]);
      var m :| 0 <= m < |w| && w[m] == rows[k];
      assert w[m].version <= o.version;
    }
    forall c | c in p.columns && c in columns ensures CellFrom(rows, o, c) {
      assert CellFrom(w, o, c);
      var m: nat :| Newest(w, m, o.key, o.version) && c in w[m].cells && w[m].cells[c] == o.cells[c];
      assert Has(w, w[m]);
      WhereKeeps(rows, hash, n, b, w[m]);
      var k :| 0 <= k < |rows| && rows[k] == w[m];
      assert Newest(rows, k, o.key, o.version);
    }
  }

  /** Every bucket's INSERT collapses the rows of that bucket. */
  ghost predicate Answers(parts: seq<seq<Row>>, rows: seq<Row>, columns: set<string>, p: Plan, hash: string -> nat,
                          n: nat)
  {
    n > 0 && |parts| <= n && forall b :: 0 <= b < |parts| ==> IsCollapse(parts[b], Where(rows, hash, n, b), columns, p)
  }

  /** The union of the first buckets: a row per key of theirs, each the collapse of the key over the whole table. */
  ghost predicate Partial(out: seq<Row>, rows: seq<Row>, columns: set<string>, p: Plan, hash: string -> nat, n: nat,
                          done: nat)
    requires n > 0
  {
    && (forall i, j :: 0 <= i < j < |out| ==> out[i].key != out[j].key)
    && (forall i :: 0 <= i < |out| ==> Collapses(out[i], rows, columns, p) && hash(out[i].key.tx) % n < done)
    && (forall i :: 0 <= i < |rows| && hash(rows[i].key.tx) % n < done ==> HasKey(out, rows[i].key))
  }

  lemma {:induction false} BucketsJoin(parts: seq<seq<Row>>, rows: seq<Row>, columns: set<string>, p: Plan,
                                       hash: string -> nat, n: nat)
    requires Answers(parts, rows, columns, p, hash, n)
    ensures Partial(Joined(parts), rows, columns, p, hash, n, |parts|)
  {
    if parts != [] {
      hide Partial, IsCollapse, Where;
      var q, b := parts[..|parts| - 1], |parts| - 1;
      BucketsJoin(q, rows, columns, p, hash, n);
      assert IsCollapse(parts[b], Where(rows, hash, n, b), columns, p);
      BucketPart(parts[b], rows, columns, p, hash, n, b);
      PartsJoin(Joined(q), parts[b], rows, columns, p, hash, n, b);
    }
  }

  /** One bucket's rows, seen from the whole table. */
  ghost predicate Part(last: seq<Row>, rows: seq<Row>, columns: set<string>, p: Plan, hash: string -> nat, n: nat,
                       b: nat)
    requires n > 0
  {
    && (forall i, j :: 0 <= i < j < |last| ==> last[i].key != last[j].key)
    && (forall i :: 0 <= i < |last| ==> Collapses(last[i], rows, columns, p) && hash(last[i].key.tx) % n == b)
    && (forall i :: 0 <= i < |rows| && hash(rows[i].key.tx) % n == b ==> HasKey(last, rows[i].key))
  }

  lemma BucketPart(last: seq<Row>, rows: seq<Row>, columns: set<string>, p: Plan, hash: string -> nat, n: nat, b: nat)
    requires n > 0 && IsCollapse(last, Where(rows, hash, n, b), columns, p)
    ensures Part(last, rows, columns, p, hash, n, b)
  {
    hide Collapses, Where;
    forall i | 0 <= i < |last| ensures Collapses(last[i], rows, columns, p) && hash(last[i].key.tx) % n == b {
      BucketCollapses(last[i], rows, columns, p, hash, n, b);
    }
    forall i | 0 <= i < |rows| && hash(rows[i].key.tx) % n == b ensures HasKey(last, rows[i].key) {
      LastHasKey(last, rows, columns, p, hash, n, b, i);
    }
  }

  lemma LastHasKey(last: seq<Row>, rows: seq<Row>, columns: set<string>, p: Plan, hash: string -> nat, n: nat, b: nat,
                   i: nat)
    requires n > 0 && i < |rows| && hash(rows[i].key.tx) % n == b
             && IsCollapse(last, Where(rows, hash, n, b), columns, p)
    ensures HasKey(last, rows[i].key)
  {
    hide Collapses;
    assert Has(rows, rows[i]);
    WhereKeeps(rows, hash, n, b, rows[i]);
    var w := Where(rows, hash, n, b);
    var j :| 0 <= j < |w| && w[j] == rows[i];
    assert HasKey(last, w[j].key);
  }

  lemma HasKeyJoins(a: seq<Row>, b: seq<Row>, k: Key)
    ensures HasKey(a + b, k) <==> HasKey(a, k) || HasKey(b, k)
  {
    if HasKey(a, k) { var i :| 0 <= i < |a| && a[i].key == k; assert (a + b)[i].key == k; }
    if HasKey(b, k) { var i :| 0 <= i < |b| && b[i].key == k; assert (a + b)[|a| + i].key == k; }
  }

  lemma PartsJoin(was: seq<Row>, last: seq<Row>, rows: seq<Row>, columns: set<string>, p: Plan, hash: string -> nat,
                  n: nat, b: nat)
    requires n > 0 && Partial(was, rows, columns, p, hash, n, b) && Part(last, rows, columns, p, hash, n, b)
    ensures Partial(was + last, rows, columns, p, hash, n, b + 1)
  {
    hide Collapses, HasKey;
    var out := was + last;
    forall i | 0 <= i < |rows| && hash(rows[i].key.tx) % n < b + 1 ensures HasKey(out, rows[i].key) {
      HasKeyJoins(was, last, rows[i].key);
    }
    forall i | 0 <= i < |out| ensures Collapses(out[i], rows, columns, p) && hash(out[i].key.tx) % n < b + 1 {
      if i < |was| { assert out[i] == was[i]; } else { assert out[i] == last[i - |was|]; }
    }
    forall i, j | 0 <= i < j < |out| ensures out[i].key != out[j].key {
      if j < |was| { assert out[i] == was[i] && out[j] == was[j]; }
      else if i >= |was| { assert out[i] == last[i - |was|] && out[j] == last[j - |was|]; }
      else {
        assert out[i] == was[i] && out[j] == last[j - |was|];
        assert hash(was[i].key.tx) % n < b;
        assert hash(last[j - |was|].key.tx) % n == b;
      }
    }
  }

  /** All buckets together are the collapse of the whole table. */
  lemma BucketsAreCollapse(parts: seq<seq<Row>>, rows: seq<Row>, columns: set<string>, p: Plan, hash: string -> nat)
    requires Answers(parts, rows, columns, p, hash, |parts|)
    ensures IsCollapse(Joined(parts), rows, columns, p)
  {
    BucketsJoin(parts, rows, columns, p, hash, |parts|);
    var out := Joined(parts);
    forall i | 0 <= i < |rows| ensures HasKey(out, rows[i].key) { assert hash(rows[i].key.tx) % |parts| < |parts|; }
  }

  lemma KeysOfNext(p: seq<Row>, x: Row)
    ensures KeysOf(p + [x]) == KeysOf(p) + {x.key}
  {
    var rows := p + [x];
    forall k | k in KeysOf(p) + {x.key} ensures k in KeysOf(rows) {
      if k == x.key { assert rows[|p|].key == k; }
      else { var i :| 0 <= i < |p| && p[i].key == k; assert rows[i].key == k; }
    }
    forall k | k in KeysOf(rows) ensures k in KeysOf(p) + {x.key} {
      var i :| 0 <= i < |rows| && rows[i].key == k;
      if i < |p| { assert p[i].key == k; }
    }
  }

  lemma {:induction false} DistinctCount(rows: seq<Row>)
    requires forall i, j :: 0 <= i < j < |rows| ==> rows[i].key != rows[j].key
    ensures |KeysOf(rows)| == |rows|
  {
    if rows != [] {
      var p, x := rows[..|rows| - 1], rows[|rows| - 1];
      DistinctCount(p);
      KeysOfNext(p, x);
      assert rows == p + [x];
      assert x.key !in KeysOf(p);
    }
  }

  /** So the verification, which counts, passes. */
  lemma CollapseCounts(out: seq<Row>, rows: seq<Row>, columns: set<string>, p: Plan)
    requires IsCollapse(out, rows, columns, p)
    ensures KeysOf(out) == KeysOf(rows) && |out| == |KeysOf(rows)|
  {
    DistinctCount(out);
    forall k | k in KeysOf(out) ensures k in KeysOf(rows) {
      var i :| 0 <= i < |out| && out[i].key == k;
      assert Collapses(out[i], rows, columns, p);
      var j: nat :| Newest(rows, j, k, out[i].version);
      assert rows[j].key == k;
    }
    forall k | k in KeysOf(rows) ensures k in KeysOf(out) {
      var i :| 0 <= i < |rows| && rows[i].key == k;
      assert HasKey(out, rows[i].key);
    }
    assert KeysOf(out) == KeysOf(rows);
  }

  // ---------------------------------------------------------------- what a collapsed row is

  /** A row as the v2 table stores it. */
  function Projected(r: Row, legacy: set<string>, p: Plan): Row
    requires p.columns <= p.defaults.Keys && legacy <= r.cells.Keys
  {
    Row(r.key, r.version, map c | c in p.columns :: if c in legacy then r.cells[c] else p.defaults[c])
  }

  /** Every row has a cell in each of the table's columns. */
  ghost predicate Filled(rows: seq<Row>, columns: set<string>) {
    forall i :: 0 <= i < |rows| ==> columns <= rows[i].cells.Keys
  }

  /** No key has two rows of one version. */
  ghost predicate VersionsDistinct(rows: seq<Row>) {
    forall i, j :: 0 <= i < j < |rows| && rows[i].key == rows[j].key ==> rows[i].version != rows[j].version
  }

  /** Under distinct versions the collapsed row is the key's newest row. */
  lemma NewestSurvives(o: Row, rows: seq<Row>, legacy: set<string>, p: Plan, j: nat)
    requires p.columns <= p.defaults.Keys && Filled(rows, legacy) && VersionsDistinct(rows)
    requires Collapses(o, rows, legacy, p) && Newest(rows, j, o.key, o.version)
    ensures o == Projected(rows[j], legacy, p)
    ensures forall i :: 0 <= i < |rows| && rows[i].key == o.key && i != j ==> rows[i].version < o.version
  {
    AgreeingNewest(o, rows, legacy, p, j);
  }

  /** The newest rows of the key agree in every column that is carried over. */
  ghost predicate Agree(rows: seq<Row>, k: Key, version: int, legacy: set<string>, p: Plan) {
    forall i: nat, j: nat, c | Newest(rows, i, k, version) && Newest(rows, j, k, version) && c in p.columns
                                && c in legacy ::
      c in rows[i].cells && c in rows[j].cells ==> rows[i].cells[c] == rows[j].cells[c]
  }

  lemma AgreeingNewest(o: Row, rows: seq<Row>, legacy: set<string>, p: Plan, j: nat)
    requires p.columns <= p.defaults.Keys && Filled(rows, legacy) && Agree(rows, o.key, o.version, legacy, p)
    requires Collapses(o, rows, legacy, p) && Newest(rows, j, o.key, o.version)
    ensures o == Projected(rows[j], legacy, p)
  {
    var q := Projected(rows[j], legacy, p);
    forall c | c in p.columns ensures o.cells[c] == q.cells[c] {
      if c in legacy {
        assert CellFrom(rows, o, c);
        assert legacy <= rows[j].cells.Keys;
      }
    }
    assert o.cells == q.cells;
  }

  /** The key has at most one possible collapsed row. */
  ghost predicate OneCollapse(rows: seq<Row>, k: Key, legacy: set<string>, p: Plan) {
    forall o, q | Collapses(o, rows, legacy, p) && Collapses(q, rows, legacy, p) && o.key == k == q.key :: o == q
  }

  /** `argMax` picks each column on its own: the collapsed row is determined exactly when the key's newest rows
      agree. */
  lemma DeterminedIffAgree(rows: seq<Row>, legacy: set<string>, p: Plan, m: nat)
    requires p.columns <= p.defaults.Keys && Filled(rows, legacy) && m < |rows|
    requires forall i :: 0 <= i < |rows| && rows[i].key == rows[m].key ==> rows[i].version <= rows[m].version
    ensures OneCollapse(rows, rows[m].key, legacy, p)
            <==> Agree(rows, rows[m].key, rows[m].version, legacy, p)
  {
    var k, v := rows[m].key, rows[m].version;
    if Agree(rows, k, v, legacy, p) {
      forall o, q | Collapses(o, rows, legacy, p) && Collapses(q, rows, legacy, p) && o.key == k == q.key
        ensures o == q
      {
        MaxIsMax(o, rows, legacy, p, m);
        MaxIsMax(q, rows, legacy, p, m);
        AgreeingNewest(o, rows, legacy, p, m);
        AgreeingNewest(q, rows, legacy, p, m);
      }
    } else {
      var i: nat, j: nat, c :| Newest(rows, i, k, v) && Newest(rows, j, k, v) && c in p.columns && c in legacy
                               && c in rows[i].cells && c in rows[j].cells && rows[i].cells[c] != rows[j].cells[c];
      RowCollapses(rows, legacy, p, i);
      RowCollapses(rows, legacy, p, j);
      assert Projected(rows[i], legacy, p).cells[c] != Projected(rows[j], legacy, p).cells[c];
    }
  }

  lemma MaxIsMax(o: Row, rows: seq<Row>, legacy: set<string>, p: Plan, m: nat)
    requires m < |rows| && Collapses(o, rows, legacy, p) && o.key == rows[m].key
    requires forall i :: 0 <= i < |rows| && rows[i].key == rows[m].key ==> rows[i].version <= rows[m].version
    ensures o.version == rows[m].version && Newest(rows, m, o.key, o.version)
  {
    var j: nat :| Newest(rows, j, o.key, o.version);
    assert rows[j].version <= rows[m].version;
  }

  /** A newest row, as it stands, is a possible collapse. */
  lemma RowCollapses(rows: seq<Row>, legacy: set<string>, p: Plan, i: nat)
    requires p.columns <= p.defaults.Keys && Filled(rows, legacy) && i < |rows|
    requires forall j :: 0 <= j < |rows| && rows[j].key == rows[i].key ==> rows[j].version <= rows[i].version
    ensures Collapses(Projected(rows[i], legacy, p), rows, legacy, p)
  {
    var o := Projected(rows[i], legacy, p);
    assert Newest(rows, i, o.key, o.version);
    forall c | c in p.columns && c in legacy ensures CellFrom(rows, o, c) {
      assert c in rows[i].cells && rows[i].cells[c] == o.cells[c];
    }
  }

  // ---------------------------------------------------------------- the migration of one table

  datatype Outcome = Swapped | Unchanged | Mismatch | Stopped

  function Renamed(ts: Catalog, from: string, to: string): Catalog
    requires from in ts
  {
    (ts - {from})[to := ts[from]]
  }

  function Exchanged(ts: Catalog, a: string, b: string): Catalog
    requires a in ts && b in ts
  {
    ts[a := ts[b]][b := ts[a]]
  }

  /** The catalog after k statements of the rebuild: drop, create, one INSERT per bucket. */
  function Built(ts: Catalog, p: Plan, answers: seq<seq<Row>>, k: nat): Catalog
    requires k <= 2 + |answers|
  {
    if k == 0 then ts
    else if k == 1 then ts - {p.mig}
    else ts[p.mig := Table(true, true, p.columns, Joined(answers[..k - 2]))]
  }

  /** One call: `steps` statements are executed before a crash, `answers` are what the buckets' SELECTs return. A rename
      to a name that is taken raises. */
  function Migrated(ts: Catalog, p: Plan, apply: bool, legacy: string, answers: seq<seq<Row>>, steps: nat)
    : (Catalog, Outcome)
    requires p.live != p.mig
  {
    if p.live !in ts then (ts, Unchanged)
    else if !NeedsRebuild(ts[p.live]) then
      if !apply || p.mig !in ts then (ts, Unchanged)
      else if steps == 0 || legacy in ts then (ts, Stopped)
      else (Renamed(ts, p.mig, legacy), Unchanged)
    else if !apply then (ts, Unchanged)
    else
      var n := 2 + |answers|;
      if steps < n then (Built(ts, p, answers, steps), Stopped)
      else
        var b := Built(ts, p, answers, n);
        if |b[p.mig].rows| != |KeysOf(ts[p.live].rows)| then (b, Mismatch)
        else if steps == n then (b, Stopped)
        else
          var e := Exchanged(b, p.live, p.mig);
          if steps == n + 1 || legacy in e then (e, Stopped) else (Renamed(e, p.mig, legacy), Swapped)
  }

  class Server {
    var tables: Catalog

    method MigrateTable(p: Plan, apply: bool, legacy: string, answers: seq<seq<Row>>, steps: nat) returns (r: Outcome)
      requires p.live != p.mig
      modifies this
      ensures (tables, r) == Migrated(old(tables), p, apply, legacy, answers, steps)
    {
      if p.live !in tables { return Unchanged; }
      var info := tables[p.live];
      if info.v2 && info.wide {
        if apply && p.mig in tables {
          if steps == 0 || legacy in tables { return Stopped; }
          tables := Renamed(tables, p.mig, legacy);
        }
        return Unchanged;
      }
      var keys := set i | 0 <= i < |info.rows| :: info.rows[i].key;
      if !apply { return Unchanged; }
      if steps == 0 { return Stopped; }
      tables := tables - {p.mig};
      if steps == 1 { return Stopped; }
      tables := tables[p.mig := Table(true, true, p.columns, [])];
      var bucket := 0;
      while bucket < |answers|
        invariant bucket <= |answers| && bucket + 2 <= steps
        invariant tables == Built(old(tables), p, answers, bucket + 2)
      {
        if steps == bucket + 2 { return Stopped; }
        assert answers[..bucket + 1][..bucket] == answers[..bucket];
        var mig := tables[p.mig];
        tables := tables[p.mig := mig.(rows := mig.rows + answers[bucket])];
        bucket := bucket + 1;
      }
      if |tables[p.mig].rows| != |keys| { return Mismatch; }
      if steps == 2 + |answers| { return Stopped; }
      tables := Exchanged(tables, p.live, p.mig);
      if steps == 3 + |answers| || legacy in tables { return Stopped; }
      tables := Renamed(tables, p.mig, legacy);
      return Swapped;
    }
  }

  // ---------------------------------------------------------------- crashes

  /** The rows `was` are the live table's, which is still to be rebuilt, or stand under another name beside a live table
      that needs no rebuild. */
  ghost predicate Kept(ts: Catalog, p: Plan, was: seq<Row>) {
    && p.live in ts
    && if NeedsRebuild(ts[p.live]) then ts[p.live].rows == was
       else exists name :: name in ts && name != p.live && ts[name].rows == was
  }

  /** The live table is the one to migrate, or its full collapse. */
  ghost predicate Whole(ts: Catalog, p: Plan, was: Table) {
    && p.live in ts
    && if NeedsRebuild(ts[p.live]) then ts[p.live] == was else IsCollapse(ts[p.live].rows, was.rows, was.columns, p)
  }

  /** The swap is done: the live table is v2 and nothing is left under the working name. */
  ghost predicate Done(ts: Catalog, p: Plan, was: Table) {
    Kept(ts, p, was.rows) && Whole(ts, p, was) && !NeedsRebuild(ts[p.live]) && p.mig !in ts
  }

  lemma BuiltOthers(ts: Catalog, p: Plan, answers: seq<seq<Row>>, k: nat)
    requires k <= 2 + |answers|
    ensures forall name :: name != p.mig ==> (name in Built(ts, p, answers, k) <==> name in ts)
    ensures forall name :: name != p.mig && name in ts ==> Built(ts, p, answers, k)[name] == ts[name]
    ensures k >= 2 ==> p.mig in Built(ts, p, answers, k)
                       && Built(ts, p, answers, k)[p.mig] == Table(true, true, p.columns, Joined(answers[..k - 2]))
  {}

  /** Whatever the buckets return and wherever the call stops, no legacy row is lost; only the three names are touched,
      and an existing legacy table never. */
  lemma LegacyIsKept(ts: Catalog, p: Plan, apply: bool, legacy: string, answers: seq<seq<Row>>, steps: nat,
                     was: seq<Row>)
    requires Sensible(p, legacy) && Kept(ts, p, was)
    ensures var (n, _) := Migrated(ts, p, apply, legacy, answers, steps);
            && Kept(n, p, was)
            && (forall name :: name in ts && name != p.live && name != p.mig ==> name in n && n[name] == ts[name])
  {
    hide Built, Joined, KeysOf;
    var n := Migrated(ts, p, apply, legacy, answers, steps).0;
    BuiltOthers(ts, p, answers, if steps < 2 + |answers| then steps else 2 + |answers|);
    if !NeedsRebuild(ts[p.live]) {
      var name :| name in ts && name != p.live && ts[name].rows == was;
      if n != ts && name == p.mig { assert n[legacy].rows == was; } else { assert n[name].rows == was; }
    } else if !NeedsRebuild(n[p.live]) {
      if p.mig in n { assert n[p.mig].rows == was; } else { assert n[legacy].rows == was; }
    }
  }

  /** The live name always holds all legacy rows or their full collapse. */
  lemma LiveIsWhole(ts: Catalog, p: Plan, apply: bool, legacy: string, answers: seq<seq<Row>>, steps: nat, was: Table,
                    hash: string -> nat)
    requires Sensible(p, legacy) && Whole(ts, p, was) && Answers(answers, was.rows, was.columns, p, hash, |answers|)
    ensures Whole(Migrated(ts, p, apply, legacy, answers, steps).0, p, was)
  {
    hide Built, Joined, KeysOf, IsCollapse, Answers;
    BuiltOthers(ts, p, answers, if steps < 2 + |answers| then steps else 2 + |answers|);
    BucketsAreCollapse(answers, was.rows, was.columns, p, hash);
    assert answers[..|answers|] == answers;
  }

  /** A call that is not cut short, under a legacy name not yet taken, ends in the swapped state. */
  lemma RerunCompletes(ts: Catalog, p: Plan, legacy: string, answers: seq<seq<Row>>, steps: nat, was: Table,
                       hash: string -> nat)
    requires Sensible(p, legacy) && Kept(ts, p, was.rows) && Whole(ts, p, was) && legacy !in ts
             && steps >= 4 + |answers|
    requires Answers(answers, was.rows, was.columns, p, hash, |answers|)
    ensures var (n, r) := Migrated(ts, p, true, legacy, answers, steps);
            && Done(n, p, was) && p.live in ts && n[p.live].v2 && n[p.live].wide
            && (if ts[p.live].v2 && ts[p.live].wide then
                  r == Unchanged && n[p.live] == ts[p.live] && (p.mig in ts ==> legacy in n && n[legacy] == ts[p.mig])
                else r == Swapped && n[p.live].columns == p.columns && legacy in n && n[legacy] == ts[p.live])
  {
    hide Built, Joined, KeysOf, IsCollapse, Answers, Kept;
    BuiltOthers(ts, p, answers, 2 + |answers|);
    BucketsAreCollapse(answers, was.rows, was.columns, p, hash);
    CollapseCounts(Joined(answers), was.rows, was.columns, p);
    assert answers[..|answers|] == answers;
    LegacyIsKept(ts, p, true, legacy, answers, steps, was.rows);
    LiveIsWhole(ts, p, true, legacy, answers, steps, was, hash);
    KeptIsLive(ts, p, was.rows);
  }

  /** Without the apply switch nothing changes. */
  lemma DryRunChangesNothing(ts: Catalog, p: Plan, legacy: string, answers: seq<seq<Row>>, steps: nat)
    requires p.live != p.mig
    ensures Migrated(ts, p, false, legacy, answers, steps) == (ts, Unchanged)
  {}

  /** The live table is exchanged only for as many rows as it has distinct keys: otherwise it stays as it is, and an
      uncut call says so. */
  lemma MiscountNeverSwaps(ts: Catalog, p: Plan, apply: bool, legacy: string, answers: seq<seq<Row>>, steps: nat)
    requires Sensible(p, legacy) && p.live in ts && |Joined(answers)| != |KeysOf(ts[p.live].rows)|
    ensures var (n, r) := Migrated(ts, p, apply, legacy, answers, steps);
            && p.live in n && n[p.live] == ts[p.live] && r != Swapped
            && (apply && !(ts[p.live].v2 && ts[p.live].wide) && steps >= 2 + |answers| ==> r == Mismatch)
  {
    hide Built, Joined, KeysOf;
    BuiltOthers(ts, p, answers, if steps < 2 + |answers| then steps else 2 + |answers|);
    assert answers[..|answers|] == answers;
  }

  lemma KeptIsLive(ts: Catalog, p: Plan, was: seq<Row>)
    requires Kept(ts, p, was)
    ensures p.live in ts
  {}

  datatype Call = Call(apply: bool, legacy: string, answers: seq<seq<Row>>, steps: nat)

  function Calls(ts: Catalog, p: Plan, cs: seq<Call>): Catalog
    requires p.live != p.mig
  {
    if cs == [] then ts
    else
      var c := cs[|cs| - 1];
      Migrated(Calls(ts, p, cs[..|cs| - 1]), p, c.apply, c.legacy, c.answers, c.steps).0
  }

  ghost predicate Proper(c: Call, p: Plan, was: Table, hash: string -> nat) {
    Sensible(p, c.legacy) && Answers(c.answers, was.rows, was.columns, p, hash, |c.answers|)
  }

  /** Any number of calls, each crashing anywhere, keeps the legacy rows and a whole live table. */
  lemma {:induction false} CrashesAreSafe(ts: Catalog, p: Plan, cs: seq<Call>, was: Table, hash: string -> nat)
    requires p.live != p.mig && p.live in ts && NeedsRebuild(was) && ts[p.live] == was
    requires forall i :: 0 <= i < |cs| ==> Proper(cs[i], p, was, hash)
    ensures Kept(Calls(ts, p, cs), p, was.rows) && Whole(Calls(ts, p, cs), p, was)
  {
    if cs != [] {
      hide Migrated, Kept, Whole, Answers;
      var q, c := cs[..|cs| - 1], cs[|cs| - 1];
      CrashesAreSafe(ts, p, q, was, hash);
      assert Proper(c, p, was, hash);
      LegacyIsKept(Calls(ts, p, q), p, c.apply, c.legacy, c.answers, c.steps, was.rows);
      LiveIsWhole(Calls(ts, p, q), p, c.apply, c.legacy, c.answers, c.steps, was, hash);
    }
  }

  /** And one more call that is not cut short swaps. */
  lemma CrashesRecover(ts: Catalog, p: Plan, cs: seq<Call>, last: Call, was: Table, hash: string -> nat)
    requires p.live != p.mig && p.live in ts && NeedsRebuild(was) && ts[p.live] == was
    requires forall i :: 0 <= i < |cs| ==> Proper(cs[i], p, was, hash)
    requires Proper(last, p, was, hash) && last.apply && last.legacy !in Calls(ts, p, cs)
             && last.steps >= 4 + |last.answers|
    ensures Done(Calls(ts, p, cs + [last]), p, was)
  {
    hide Migrated, Kept, Whole, Answers, Done;
    CrashesAreSafe(ts, p, cs, was, hash);
    RerunCompletes(Calls(ts, p, cs), p, last.legacy, last.answers, last.steps, was, hash);
    assert (cs + [last])[..|cs|] == cs;
  }

  // ---------------------------------------------------------------- rows stranded under the working name

  ghost predicate Somewhere(ts: Catalog, r: Row) {
    exists name :: name in ts && Has(ts[name].rows, r)
  }

  lemma HasJoins(a: seq<Row>, b: seq<Row>, r: Row)
    ensures Has(a + b, r) <==> Has(a, r) || Has(b, r)
  {
    if Has(a, r) { var i :| 0 <= i < |a| && a[i] == r; assert (a + b)[i] == r; }
    if Has(b, r) { var i :| 0 <= i < |b| && b[i] == r; assert (a + b)[|a| + i] == r; }
  }

  lemma {:induction false} JoinedHas(parts: seq<seq<Row>>, r: Row)
    requires forall b :: 0 <= b < |parts| ==> !Has(parts[b], r)
    ensures !Has(Joined(parts), r)
  {
    if parts != [] {
      var q, last := parts[..|parts| - 1], parts[|parts| - 1];
      JoinedHas(q, r);
      HasJoins(Joined(q), last, r);
    }
  }

  /** A row that only a table stranded under the working name holds survives an applied call exactly when the live table
      needs no rebuild. A v2 table whose count columns are still narrow does: the rebuild begins by dropping the
      stranded table. */
  lemma StrandedKeptIffNoRebuild(ts: Catalog, p: Plan, legacy: string, answers: seq<seq<Row>>, steps: nat, r: Row)
    requires Sensible(p, legacy) && p.live in ts && p.mig in ts && legacy !in ts && steps >= 1
    requires Has(ts[p.mig].rows, r) && forall name :: name in ts && name != p.mig ==> !Has(ts[name].rows, r)
    requires forall b :: 0 <= b < |answers| ==> !Has(answers[b], r)
    ensures Somewhere(Migrated(ts, p, true, legacy, answers, steps).0, r) <==> !NeedsRebuild(ts[p.live])
  {
    hide Built, Joined, KeysOf, Has;
    var n := Migrated(ts, p, true, legacy, answers, steps).0;
    if !NeedsRebuild(ts[p.live]) {
      assert Has(n[legacy].rows, r);
    } else {
      var k := if steps < 2 + |answers| then steps else 2 + |answers|;
      BuiltOthers(ts, p, answers, k);
      if k >= 2 {
        var some := answers[..k - 2];
        forall b | 0 <= b < |some| ensures !Has(some[b], r) { assert some[b] == answers[b]; }
        JoinedHas(some, r);
      } else {
        assert p.mig !in n by { BuiltOne(ts, p, answers); }
      }
    }
  }

  lemma BuiltOne(ts: Catalog, p: Plan, answers: seq<seq<Row>>)
    ensures p.mig !in Built(ts, p, answers, 1)
  {}
}
