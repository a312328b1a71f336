/** Percentile normalisation, the caps on learned baselines and the drift guard on recomputes
    (`normalise`, `resolve_baseline`, `resolved_or_bootstrap`, `check_drift`, `_filter_drifted`). */
module Baselines {
  import opened Collections

  const EPSILON := 0.000001

  function Max(x: real, y: real): real {
    if x >= y then x else y
  }

  function Normalise(value: real, p50: real, p99: real): real {
    if p99 - p50 <= 0.0 then 0.0
    else Max(0.0, Min(1.0, (value - p50) / (p99 - p50 + EPSILON)))
  }

  /** The score runs in a straight line from 0 at the median to 1 a little past the tail, and is flat on either side; a
      pair without spread scores nothing. */
  lemma ScoreIsLinear(v: real, p50: real, p99: real)
    ensures p99 <= p50 || v <= p50 ==> Normalise(v, p50, p99) == 0.0
    ensures p99 > p50 && v >= p99 + 0.000001 ==> Normalise(v, p50, p99) == 1.0
    ensures p50 < p99 && p50 <= v <= p99 + 0.000001 ==> Normalise(v, p50, p99) * (p99 - p50 + 0.000001) == v - p50
  {
    if p50 < p99 {
      var n, d := v - p50, p99 - p50 + EPSILON;
      var q := n / d;
      assert q * d == n;
      if v <= p50 { NotPositive(n, d); }
      else if v >= p99 + EPSILON { Fractions(1.0, 1.0, n, d); }
      else { Fractions(n, d, 1.0, 1.0); Fractions(0.0, 1.0, n, d); }
    }
  }

  /** A percentile pair. */
  datatype Pair = Pair(p50: real, p99: real)

  /** A stored baseline with its sample count. */
  datatype Baseline = Baseline(pair: Pair, samples: nat)

  predicate Usable(p: Pair, minSpread: real) {
    if p.p50 <= 0.0 then p.p99 > 0.0 else (p.p99 - p.p50) / p.p50 >= minSpread
  }

  datatype Source = Scoped | Global | Missing | Bootstrap

  /** The knobs of the baseline block and of one lookup. */
  datatype Tuning = Tuning(minSpread: real, minSamples: nat, capMultiplier: real, spreadFraction: real)

  predicate Qualifies(b: Option<Baseline>, t: Tuning) {
    b.Some? && b.value.samples >= t.minSamples && Usable(b.value.pair, t.minSpread)
  }

  /** `resolve_baseline`: the requested tier, then the global one, each only where it may be consulted. */
  function Resolve(scoped: Option<Baseline>, global: Option<Baseline>, t: Tuning): (Pair, Source) {
    if Qualifies(scoped, t) then (scoped.value.pair, Scoped)
    else if Qualifies(global, t) then (global.value.pair, Global)
    else (Pair(0.0, 1.0), Missing)
  }

  /** The highest p99 a learned baseline may resolve to. */
  function Cap(anchor: Pair, t: Tuning): real {
    t.capMultiplier * anchor.p99
  }

  /** The highest p50. */
  function MedianBound(anchor: Pair, t: Tuning): real
    requires t.minSpread > 0.0
  {
    Min(anchor.p50 + t.spreadFraction * (anchor.p99 - anchor.p50), Cap(anchor, t) / (1.0 + t.minSpread))
  }

  /** A tier that may not be consulted, or holds no row, is absent. */
  method ResolvedOrBootstrap(scoped: Option<Baseline>, global: Option<Baseline>, anchor: Pair, t: Tuning)
    returns (p: Pair, source: Source)
    requires t.minSpread > 0.0
    ensures source != Missing && (source == Bootstrap <==> Resolve(scoped, global, t).1 == Missing)
    ensures source == if Serves(scoped, t) then Scoped else if Serves(global, t) then Global else Bootstrap
    ensures source == Bootstrap ==> p == anchor
    ensures source != Bootstrap ==>
              var learned := if source == Scoped then scoped.value.pair else global.value.pair;
              if t.capMultiplier > 0.0 && anchor.p99 > 0.0 then IsCapped(p, learned, anchor, t) else p == learned
    ensures source != Bootstrap && (t.capMultiplier <= 0.0 || anchor.p99 <= 0.0) ==> p == Resolve(scoped, global, t).0
    ensures source != Bootstrap && t.capMultiplier > 0.0 && anchor.p99 > 0.0 ==>
              && p.p50 < p.p99 && Usable(p, t.minSpread)
              && p.p50 <= Resolve(scoped, global, t).0.p50 && p.p99 <= Resolve(scoped, global, t).0.p99
              && forall v :: Normalise(v, p.p50, p.p99) >= Normalise(v, MedianBound(anchor, t), Cap(anchor, t))
    ensures source != Bootstrap && t.capMultiplier > 0.0 && anchor.p99 > 0.0
            && Resolve(scoped, global, t).0.p50 <= MedianBound(anchor, t)
            && Resolve(scoped, global, t).0.p99 <= Cap(anchor, t) ==>
              p == Resolve(scoped, global, t).0
  {
    hide Normalise, Usable, Resolve, MedianBound, Cap, Serves, IsCapped;
    TierOrder(scoped, global, t);
    ServesIsSome(scoped, t);
    ServesIsSome(global, t);
    p, source := Resolve(scoped, global, t).0, Resolve(scoped, global, t).1;
    ResolvedIsUsable(scoped, global, t);
    if source == Missing {
      p, source := anchor, Bootstrap;
    } else if t.capMultiplier > 0.0 {
      if anchor.p99 > 0.0 {
        CappedIsUsable(p, anchor, t);
        CutIsCapped(p, anchor, t);
        var cap := Cap(anchor, t);
        p := p.(p99 := Min(p.p99, cap));
        var bound := MedianBound(anchor, t);
        p := p.(p50 := Min(p.p50, bound));
        forall v ensures Normalise(v, p.p50, p.p99) >= Normalise(v, bound, cap) {
          LowerPairScoresHigher(v, p, Pair(bound, cap));
        }
      }
    }
  }

  /** The baseline has the samples asked for, and its median is positive and its spread a usable part of it, or its tail
      is positive over a median that is not. */
  predicate Serves(b: Option<Baseline>, t: Tuning) {
    && b.Some? && b.value.samples >= t.minSamples
    && if b.value.pair.p50 > 0.0 then b.value.pair.p99 >= b.value.pair.p50 + t.minSpread * b.value.pair.p50
       else b.value.pair.p99 > 0.0
  }

  lemma QualifiesIsServes(b: Option<Baseline>, t: Tuning)
    requires t.minSpread > 0.0
    ensures Qualifies(b, t) <==> Serves(b, t)
  {
    if b.Some? && b.value.pair.p50 > 0.0 { SpreadOf(b.value.pair, t.minSpread); }
  }

  /** The narrower tier is used whenever it serves, the global one only when the narrower does not. */
  lemma TierOrder(scoped: Option<Baseline>, global: Option<Baseline>, t: Tuning)
    requires t.minSpread > 0.0
    ensures var (pair, source) := Resolve(scoped, global, t);
            if Serves(scoped, t) then source == Scoped && pair == scoped.value.pair
            else if Serves(global, t) then source == Global && pair == global.value.pair
            else source == Missing
  {
    hide Qualifies, Serves;
    QualifiesIsServes(scoped, t);
    QualifiesIsServes(global, t);
    assert Serves(scoped, t) ==> scoped.Some? by { ServesIsSome(scoped, t); }
    assert Serves(global, t) ==> global.Some? by { ServesIsSome(global, t); }
  }

  lemma ServesIsSome(b: Option<Baseline>, t: Tuning)
    ensures Serves(b, t) ==> b.Some?
  {}

  /** `p` is the learned pair with its tail cut to the multiple of the anchor's tail, and its median to a part of the
      anchor's spread above the anchor's median and to where the cut tail still leaves a usable spread. */
  ghost predicate IsCapped(p: Pair, learned: Pair, anchor: Pair, t: Tuning) {
    var cap, reach := t.capMultiplier * anchor.p99, anchor.p50 + t.spreadFraction * (anchor.p99 - anchor.p50);
    && p.p99 <= learned.p99 && p.p99 <= cap && (p.p99 == learned.p99 || p.p99 == cap)
    && p.p50 <= learned.p50 && p.p50 <= reach && p.p50 * (1.0 + t.minSpread) <= cap
    && (p.p50 == learned.p50 || p.p50 == reach || p.p50 * (1.0 + t.minSpread) == cap)
  }

  lemma CutIsCapped(learned: Pair, anchor: Pair, t: Tuning)
    requires t.minSpread > 0.0
    ensures var p := Pair(Min(learned.p50, MedianBound(anchor, t)), Min(learned.p99, Cap(anchor, t)));
            IsCapped(p, learned, anchor, t)
  {
    var cap, d := Cap(anchor, t), 1.0 + t.minSpread;
    assert (cap / d) * d == cap;
    Divided(cap, d, Min(learned.p50, MedianBound(anchor, t)));
  }

  lemma ResolvedIsUsable(scoped: Option<Baseline>, global: Option<Baseline>, t: Tuning)
    ensures Resolve(scoped, global, t).1 != Bootstrap
    ensures Resolve(scoped, global, t).1 != Missing ==> Usable(Resolve(scoped, global, t).0, t.minSpread)
  {}

  lemma CappedIsUsable(learned: Pair, anchor: Pair, t: Tuning)
    requires t.minSpread > 0.0 && t.capMultiplier > 0.0 && anchor.p99 > 0.0 && Usable(learned, t.minSpread)
    ensures var p := Pair(Min(learned.p50, MedianBound(anchor, t)), Min(learned.p99, Cap(anchor, t)));
            p.p50 < p.p99 && Usable(p, t.minSpread)
  {
    var r, cap, bound := t.minSpread, Cap(anchor, t), MedianBound(anchor, t);
    var p := Pair(Min(learned.p50, bound), Min(learned.p99, cap));
    assert cap > 0.0;
    if p.p50 > 0.0 {
      SpreadOf(learned, r);
      Divided(cap, 1.0 + r, p.p50);
      Widened(learned.p50, p.p50, r);
      SpreadOf(p, r);
    } else {
      if learned.p50 > 0.0 { SpreadOf(learned, r); }
    }
  }

  /** For a positive median the spread test is a product test. */
  lemma SpreadOf(p: Pair, r: real)
    requires p.p50 > 0.0 && r > 0.0
    ensures Usable(p, r) <==> p.p99 >= p.p50 + r * p.p50
    ensures Usable(p, r) ==> p.p99 > p.p50
  {
    var q := (p.p99 - p.p50) / p.p50;
    assert q * p.p50 == p.p99 - p.p50;
    if q >= r { assert q * p.p50 >= r * p.p50; } else { assert q * p.p50 < r * p.p50; }
    assert r * p.p50 > 0.0;
  }

  lemma Divided(cap: real, d: real, x: real)
    requires d > 0.0 && x <= cap / d
    ensures x * d <= cap
  {
    var q := cap / d;
    assert q * d == cap;
    assert x * d <= q * d;
  }

  lemma Widened(a: real, b: real, r: real)
    requires b <= a && r > 0.0
    ensures b + r * b <= a + r * a && b * (1.0 + r) == b + r * b
  {}

  /** Lowering either percentile of a proper pair can only raise the score of every value. */
  lemma LowerPairScoresHigher(v: real, low: Pair, high: Pair)
    requires low.p50 <= high.p50 && low.p99 <= high.p99 && low.p50 < low.p99
    ensures Normalise(v, low.p50, low.p99) >= Normalise(v, high.p50, high.p99)
  {
    if high.p50 < high.p99 && v > high.p50 {
      var x, d := v - low.p50, low.p99 - low.p50 + EPSILON;
      var y, e := v - high.p50, high.p99 - high.p50 + EPSILON;
      if x < d {
        CrossTerms(v, low.p50, low.p99 + EPSILON, high.p50, high.p99 + EPSILON);
        Fractions(y, e, x, d);
      } else {
        Fractions(1.0, 1.0, x, d);
      }
    } else if high.p50 < high.p99 {
      NotPositive(v - high.p50, high.p99 - high.p50 + EPSILON);
    }
  }

  lemma NotPositive(a: real, b: real)
    requires a <= 0.0 && b > 0.0
    ensures a / b <= 0.0
  {}

  lemma CrossTerms(v: real, a: real, d: real, A: real, D: real)
    requires a <= A && d <= D && A < v < d
    ensures (v - A) * (d - a) <= (v - a) * (D - A)
  {
    Scaled(v - A, d - a, D - a);
    CrossIdentity(v, a, A, D);
    Scaled(A - a, 0.0, D - v);
  }

  lemma CrossIdentity(v: real, a: real, A: real, D: real)
    ensures (v - a) * (D - A) - (v - A) * (D - a) == (A - a) * (D - v)
  {}

  // ---------------------------------------------------------------- the drift guard

  const RATIO_EPSILON := 0.000000001

  datatype DriftConfig = DriftConfig(enabled: bool, p99Threshold: real, p50Threshold: real)

  function Abs(x: real): real {
    if x >= 0.0 then x else -x
  }

  predicate CheckDrift(was: real, now: real, threshold: real) {
    if was == 0.0 then now > 0.0
    else Abs(now - was) / (Abs(was) + RATIO_EPSILON) > threshold
  }

  /** Whether a recomputed pair is held back; `inverted` says the feature has an inverted consumer. */
  predicate Held(was: Pair, now: Pair, c: DriftConfig, inverted: bool) {
    || (CheckDrift(was.p99, now.p99, c.p99Threshold) && was.p99 > 0.0 && (now.p99 > was.p99 || inverted))
    || (CheckDrift(was.p50, now.p50, c.p50Threshold) && (now.p50 > was.p50 || inverted))
  }

  /** A recomputed row: its scope and feature, the pair, and whether the feature has an inverted consumer. */
  datatype Row = Row(key: string, pair: Pair, inverted: bool)
  type Table = map<string, Pair>

  predicate Kept(table: Table, r: Row, c: DriftConfig) {
    !c.enabled || r.key !in table || !Held(table[r.key], r.pair, c, r.inverted)
  }

  /** The new value is further from the old one than the threshold allows, relative to the old; from 0 any rise is. */
  predicate Beyond(was: real, now: real, threshold: real) {
    if was == 0.0 then now > 0.0
    else
      var scale := (if was > 0.0 then was else -was) + 0.000000001;
      now - was > threshold * scale || was - now > threshold * scale
  }

  lemma DriftIsBeyond(was: real, now: real, threshold: real)
    ensures CheckDrift(was, now, threshold) <==> Beyond(was, now, threshold)
  {
    if was != 0.0 {
      var d, scale := Abs(now - was), Abs(was) + RATIO_EPSILON;
      var q := d / scale;
      assert q * scale == d;
      assert CheckDrift(was, now, threshold) <==> q > threshold;
      if q > threshold { StrictlyScaled(scale, threshold, q); } else { NotScaled(scale, q, threshold); }
      assert q > threshold <==> d > threshold * scale;
    }
  }

  lemma StrictlyScaled(c: real, x: real, y: real)
    requires c > 0.0 && x < y
    ensures x * c < y * c
  {}

  lemma NotScaled(c: real, x: real, y: real)
    requires c > 0.0 && x <= y
    ensures x * c <= y * c
  {}

  /** A recomputed row goes through unless one of its percentiles drifted beyond its threshold in a direction that is
      guarded: a rise, or with an inverted consumer any; a tail is not guarded from 0. */
  predicate GoesThrough(table: Table, r: Row, c: DriftConfig) {
    c.enabled && r.key in table ==>
      var prior := table[r.key];
      && (Beyond(prior.p99, r.pair.p99, c.p99Threshold) && prior.p99 > 0.0 ==>
            r.pair.p99 <= prior.p99 && !r.inverted)
      && (Beyond(prior.p50, r.pair.p50, c.p50Threshold) ==> r.pair.p50 <= prior.p50 && !r.inverted)
  }

  lemma KeptGoesThrough(table: Table, r: Row, c: DriftConfig)
    ensures Kept(table, r, c) <==> GoesThrough(table, r, c)
  {
    hide CheckDrift, Beyond;
    if r.key in table {
      DriftIsBeyond(table[r.key].p99, r.pair.p99, c.p99Threshold);
      DriftIsBeyond(table[r.key].p50, r.pair.p50, c.p50Threshold);
    }
  }

  /** Where each kept row stands among the rows: in order, and exactly the rows that go through. */
  ghost predicate Selects(ks: seq<nat>, table: Table, rows: seq<Row>, kept: seq<Row>, c: DriftConfig) {
    && |ks| == |kept| && (forall i, j :: 0 <= i < j < |ks| ==> ks[i] < ks[j])
    && (forall j :: 0 <= j < |ks| ==> ks[j] < |rows| && kept[j] == rows[ks[j]])
    && (forall i: nat :: i < |rows| ==> (i in ks <==> GoesThrough(table, rows[i], c)))
  }

  lemma SelectsNext(ks: seq<nat>, table: Table, p: seq<Row>, kept: seq<Row>, r: Row, c: DriftConfig)
    requires Selects(ks, table, p, kept, c)
    ensures if GoesThrough(table, r, c) then Selects(ks + [|p|], table, p + [r], kept + [r], c)
            else Selects(ks, table, p + [r], kept, c)
  {
    hide GoesThrough;
    forall i: nat | i < |p| ensures i in ks + [|p|] <==> GoesThrough(table, (p + [r])[i], c) {
      assert i in ks + [|p|] <==> i in ks;
    }
    forall j | 0 <= j < |ks| ensures ks[j] < |p| && kept[j] == (p + [r])[ks[j]] {}
    assert |p| !in ks;
  }

  lemma {:induction false} KeptAreSelected(table: Table, rows: seq<Row>, c: DriftConfig) returns (ks: seq<nat>)
    ensures Selects(ks, table, rows, KeptRows(table, rows, c), c)
  {
    ks := [];
    if rows != [] {
      hide GoesThrough, Kept, Selects;
      var n := |rows| - 1;
      ks := KeptAreSelected(table, rows[..n], c);
      KeptGoesThrough(table, rows[n], c);
      SelectsNext(ks, table, rows[..n], KeptRows(table, rows[..n], c), rows[n], c);
      assert rows == rows[..n] + [rows[n]];
      if Kept(table, rows[n], c) { ks := ks + [n]; }
    }
  }

  function KeptRows(table: Table, rows: seq<Row>, c: DriftConfig): seq<Row> {
    if rows == [] then []
    else KeptRows(table, rows[..|rows| - 1], c) + if Kept(table, rows[|rows| - 1], c) then [rows[|rows| - 1]] else []
  }

  /** `_filter_drifted`: `table` holds the active baselines the rows are compared with. */
  method FilterDrifted(table: Table, rows: seq<Row>, c: DriftConfig) returns (kept: seq<Row>)
    ensures kept == KeptRows(table, rows, c)
    ensures exists ks :: Selects(ks, table, rows, kept, c)
  {
    ghost var ks := KeptAreSelected(table, rows, c);
    if !c.enabled {
      AllKept(table, rows, c);
      return rows;
    }
    kept := [];
    for i := 0 to |rows|
      invariant kept == KeptRows(table, rows[..i], c)
    {
      assert rows[..i + 1][..i] == rows[..i];
      var row := rows[i];
      if row.key !in table {
        kept := kept + [row];
      } else {
        var prior := table[row.key];
        var p99Hold := CheckDrift(prior.p99, row.pair.p99, c.p99Threshold) && prior.p99 > 0.0
                       && (row.pair.p99 > prior.p99 || row.inverted);
        var p50Hold := CheckDrift(prior.p50, row.pair.p50, c.p50Threshold)
                       && (row.pair.p50 > prior.p50 || row.inverted);
        if !(p99Hold || p50Hold) { kept := kept + [row]; }
      }
    }
    assert rows[..|rows|] == rows;
  }

  lemma {:induction false} AllKept(table: Table, rows: seq<Row>, c: DriftConfig)
    requires !c.enabled
    ensures KeptRows(table, rows, c) == rows
  {
    if rows != [] {
      AllKept(table, rows[..|rows| - 1], c);
      assert rows == rows[..|rows| - 1] + [rows[|rows| - 1]];
    }
  }

  // ---------------------------------------------------------------- the ratchet over recomputes

  /** One recompute: its rows, and what the baseline lookups answer while they are filtered, which the cache in front of
      the table may have kept from earlier. */
  datatype Recompute = Recompute(seen: Table, rows: seq<Row>)

  /** The table after an insert, the later of two rows of one key standing. */
  function Inserted(table: Table, rows: seq<Row>): Table {
    if rows == [] then table else Inserted(table, rows[..|rows| - 1])[rows[|rows| - 1].key := rows[|rows| - 1].pair]
  }

  /** The table after a series of recomputes, each filtered and its kept rows inserted. */
  function After(first: Table, rs: seq<Recompute>, c: DriftConfig): Table {
    if rs == [] then first
    else
      var r := rs[|rs| - 1];
      Inserted(After(first, rs[..|rs| - 1], c), KeptRows(r.seen, r.rows, c))
  }

  /** The pair a recompute writes for a key, if any. */
  function Written(r: Recompute, rows: seq<Row>, k: string, c: DriftConfig): Option<Pair> {
    if rows == [] then None
    else
      var x := rows[|rows| - 1];
      if x.key == k && Kept(r.seen, x, c) then Some(x.pair) else Written(r, rows[..|rows| - 1], k, c)
  }

  /** How many of the recomputes wrote the key. */
  function Moves(rs: seq<Recompute>, k: string, c: DriftConfig): nat {
    if rs == [] then 0
    else Moves(rs[..|rs| - 1], k, c) + if Written(rs[|rs| - 1], rs[|rs| - 1].rows, k, c).Some? then 1 else 0
  }

  lemma {:induction false} InsertWrites(table: Table, r: Recompute, rows: seq<Row>, k: string, c: DriftConfig)
    requires k in table
    ensures var n := Inserted(table, KeptRows(r.seen, rows, c));
            k in n && n[k] == if Written(r, rows, k, c).Some? then Written(r, rows, k, c).value else table[k]
  {
    if rows != [] {
      var p, x := rows[..|rows| - 1], rows[|rows| - 1];
      InsertWrites(table, r, p, k, c);
      var kept := KeptRows(r.seen, p, c);
      assert (kept + [x])[..|kept|] == kept;
      assert kept + [] == kept;
    }
  }

  lemma {:induction false} WrittenIsKept(r: Recompute, rows: seq<Row>, k: string, c: DriftConfig)
    requires Written(r, rows, k, c).Some?
    ensures exists i :: 0 <= i < |rows| && rows[i].key == k && Kept(r.seen, rows[i], c)
                        && rows[i].pair == Written(r, rows, k, c).value
  {
    var p, x := rows[..|rows| - 1], rows[|rows| - 1];
    if !(x.key == k && Kept(r.seen, x, c)) {
      WrittenIsKept(r, p, k, c);
      var i :| 0 <= i < |p| && p[i].key == k && Kept(r.seen, p[i], c) && p[i].pair == Written(r, p, k, c).value;
      assert rows[i] == p[i];
    }
  }

  function Pow(b: real, n: nat): real {
    if n == 0 then 1.0 else b * Pow(b, n - 1)
  }

  predicate NonNegative(p: Pair) {
    p.p50 >= 0.0 && p.p99 >= 0.0
  }

  /** The guarded quantity: a percentile plus the ratio guard. */
  function Guarded(x: real): real {
    x + RATIO_EPSILON
  }

  /** A percentile that is not held rose by at most the threshold. */
  lemma StepBound(was: real, now: real, t: real)
    requires was >= 0.0 && now >= 0.0 && t >= 0.0
    ensures !CheckDrift(was, now, t) || now <= was ==> Guarded(now) <= (1.0 + t) * Guarded(was)
    ensures !CheckDrift(was, now, t) ==> Guarded(now) >= (1.0 - t) * Guarded(was)
  {
    var g := Guarded(was);
    assert (1.0 + t) * g == g + t * g && (1.0 - t) * g == g - t * g;
    assert t * g >= 0.0;
    if was > 0.0 && !CheckDrift(was, now, t) {
      var d := Abs(now - was);
      var q := d / g;
      assert q * g == d;
      assert q <= t;
      assert d <= t * g;
    }
  }

  /** `x`, guarded, is at most `b` to the `n` times `base`, guarded. */
  predicate AtMostPow(x: real, b: real, n: nat, base: real) {
    Guarded(x) <= Pow(b, n) * Guarded(base)
  }

  predicate AtLeastPow(x: real, b: real, n: nat, base: real) {
    Guarded(x) >= Pow(b, n) * Guarded(base)
  }

  lemma PowStart(b: real, x: real)
    ensures AtMostPow(x, b, 0, x) && AtLeastPow(x, b, 0, x)
  {}

  lemma PowStep(b: real, n: nat, x: real, y: real, base: real)
    requires b >= 0.0
    ensures AtMostPow(x, b, n, base) && Guarded(y) <= b * Guarded(x) ==> AtMostPow(y, b, n + 1, base)
    ensures AtLeastPow(x, b, n, base) && Guarded(y) >= b * Guarded(x) ==> AtLeastPow(y, b, n + 1, base)
  {
    var z, g := Pow(b, n) * Guarded(base), Guarded(x);
    Reassociate(b, Pow(b, n), Guarded(base));
    assert Pow(b, n + 1) == b * Pow(b, n);
    Scaled(b, g, z);
    Scaled(b, z, g);
  }

  lemma Reassociate(x: real, y: real, z: real)
    ensures (x * y) * z == x * (y * z)
  {}

  lemma Scaled(b: real, x: real, y: real)
    requires b >= 0.0
    ensures x <= y ==> b * x <= b * y
  {}

  lemma {:induction false} PowOrder(b: real, n: nat, m: nat)
    requires n <= m && b >= 0.0
    ensures Pow(b, n) >= 0.0
    ensures b >= 1.0 ==> Pow(b, n) <= Pow(b, m)
    ensures b <= 1.0 ==> Pow(b, m) <= Pow(b, n)
  {
    PowPositive(b, n);
    if n < m {
      PowOrder(b, n, m - 1);
      PowPositive(b, m - 1);
      OneMoreFactor(b, Pow(b, m - 1));
      assert Pow(b, m) == b * Pow(b, m - 1);
    }
  }

  lemma OneMoreFactor(b: real, x: real)
    requires x >= 0.0
    ensures b >= 1.0 ==> x <= b * x
    ensures b <= 1.0 ==> b * x <= x
  {
    if b >= 1.0 { Scaled(x, 1.0, b); } else { Scaled(x, b, 1.0); }
  }

  lemma {:induction false} PowPositive(b: real, n: nat)
    requires b >= 0.0
    ensures Pow(b, n) >= 0.0
  {
    if n > 0 {
      PowPositive(b, n - 1);
      Scaled(b, 0.0, Pow(b, n - 1));
    }
  }

  /** A bound after fewer applied steps is one after more. */
  lemma PowMore(x: real, b: real, n: nat, m: nat, base: real)
    requires n <= m && b >= 0.0 && base >= 0.0
    ensures b >= 1.0 && AtMostPow(x, b, n, base) ==> AtMostPow(x, b, m, base)
    ensures b <= 1.0 && AtLeastPow(x, b, n, base) ==> AtLeastPow(x, b, m, base)
  {
    PowOrder(b, n, m);
    Scaled(Guarded(base), Pow(b, n), Pow(b, m));
    Scaled(Guarded(base), Pow(b, m), Pow(b, n));
  }

  lemma MedianStep(was: Pair, now: Pair, c: DriftConfig, inverted: bool, n: nat, base: real)
    requires NonNegative(was) && NonNegative(now) && c.p50Threshold >= 0.0
    requires AtMostPow(was.p50, 1.0 + c.p50Threshold, n, base)
    ensures !Held(was, now, c, inverted) ==> AtMostPow(now.p50, 1.0 + c.p50Threshold, n + 1, base)
  {
    hide AtMostPow, AtLeastPow, CheckDrift, Guarded;
    if !Held(was, now, c, inverted) {
      StepBound(was.p50, now.p50, c.p50Threshold);
      PowStep(1.0 + c.p50Threshold, n, was.p50, now.p50, base);
    }
  }

  lemma TailStep(was: Pair, now: Pair, c: DriftConfig, inverted: bool, n: nat, base: real)
    requires NonNegative(was) && NonNegative(now) && c.p99Threshold >= 0.0 && was.p99 > 0.0
    requires AtMostPow(was.p99, 1.0 + c.p99Threshold, n, base)
    ensures !Held(was, now, c, inverted) ==> AtMostPow(now.p99, 1.0 + c.p99Threshold, n + 1, base)
  {
    hide AtMostPow, AtLeastPow, CheckDrift, Guarded;
    if !Held(was, now, c, inverted) {
      StepBound(was.p99, now.p99, c.p99Threshold);
      PowStep(1.0 + c.p99Threshold, n, was.p99, now.p99, base);
    }
  }

  lemma FloorStep(was: Pair, now: Pair, c: DriftConfig, n: nat, base: real)
    requires NonNegative(was) && NonNegative(now) && 0.0 <= c.p50Threshold <= 1.0 && !Held(was, now, c, true)
    requires AtLeastPow(was.p50, 1.0 - c.p50Threshold, n, base)
    ensures AtLeastPow(now.p50, 1.0 - c.p50Threshold, n + 1, base)
  {
    hide AtMostPow, AtLeastPow, Guarded, CheckDrift;
    StepBound(was.p50, now.p50, c.p50Threshold);
    PowStep(1.0 - c.p50Threshold, n, was.p50, now.p50, base);
  }

  lemma TailFloorStep(was: Pair, now: Pair, c: DriftConfig, n: nat, base: real)
    requires NonNegative(was) && NonNegative(now) && 0.0 <= c.p99Threshold <= 1.0 && !Held(was, now, c, true)
    requires AtLeastPow(was.p99, 1.0 - c.p99Threshold, n, base)
    ensures AtLeastPow(now.p99, 1.0 - c.p99Threshold, n + 1, base)
  {
    hide AtMostPow, AtLeastPow, CheckDrift;
    if was.p99 > 0.0 { StepBound(was.p99, now.p99, c.p99Threshold); } else { Shrunk(c.p99Threshold, Guarded(was.p99)); }
    PowStep(1.0 - c.p99Threshold, n, was.p99, now.p99, base);
  }

  /** Recompute `i` of a series is about sane percentiles of the key, and the prior its lookup answers is the key's
      active pair now or before some earlier recompute. */
  ghost predicate Sane(first: Table, rs: seq<Recompute>, i: nat, k: string, c: DriftConfig, inverted: bool)
    requires i < |rs|
  {
    && (forall a :: 0 <= a < |rs[i].rows| && rs[i].rows[a].key == k ==>
          NonNegative(rs[i].rows[a].pair) && rs[i].rows[a].inverted == inverted)
    && k in rs[i].seen && exists j :: 0 <= j <= i && SeenAt(first, rs, i, j, k, c)
  }

  ghost predicate SeenAt(first: Table, rs: seq<Recompute>, i: nat, j: nat, k: string, c: DriftConfig)
    requires j <= i < |rs|
  {
    var table := After(first, rs[..j], c);
    k in table && k in rs[i].seen && rs[i].seen[k] == table[k]
  }

  ghost predicate AllSane(first: Table, rs: seq<Recompute>, k: string, c: DriftConfig, inverted: bool) {
    && c.enabled && k in first && NonNegative(first[k])
    && forall i :: 0 <= i < |rs| ==> Sane(first, rs, i, k, c, inverted)
  }

  lemma PrefixSane(first: Table, rs: seq<Recompute>, n: nat, k: string, c: DriftConfig, inverted: bool)
    requires n <= |rs| && AllSane(first, rs, k, c, inverted)
    ensures AllSane(first, rs[..n], k, c, inverted)
  {
    hide After, NonNegative;
    forall i | 0 <= i < n ensures Sane(first, rs[..n], i, k, c, inverted) {
      assert Sane(first, rs, i, k, c, inverted);
      var j :| 0 <= j <= i && SeenAt(first, rs, i, j, k, c);
      assert rs[..n][..j] == rs[..j];
      assert SeenAt(first, rs[..n], i, j, k, c);
    }
  }

  /** What the last recompute of a series does to the key. */
  lemma LastWrite(first: Table, rs: seq<Recompute>, k: string, c: DriftConfig, inverted: bool)
    requires rs != [] && AllSane(first, rs, k, c, inverted) && k in After(first, rs[..|rs| - 1], c)
    ensures var (r, w) := (rs[|rs| - 1], Written(rs[|rs| - 1], rs[|rs| - 1].rows, k, c));
            && k in r.seen && k in After(first, rs, c)
            && After(first, rs, c)[k] == (if w.Some? then w.value else After(first, rs[..|rs| - 1], c)[k])
            && Moves(rs, k, c) == Moves(rs[..|rs| - 1], k, c) + (if w.Some? then 1 else 0)
            && (w.Some? ==> NonNegative(w.value) && !Held(r.seen[k], w.value, c, inverted))
  {
    hide Held, NonNegative;
    var r := rs[|rs| - 1];
    assert Sane(first, rs, |rs| - 1, k, c, inverted);
    InsertWrites(After(first, rs[..|rs| - 1], c), r, r.rows, k, c);
    if Written(r, r.rows, k, c).Some? { WrittenIsKept(r, r.rows, k, c); }
  }

  lemma {:induction false} MovesRise(rs: seq<Recompute>, n: nat, k: string, c: DriftConfig)
    requires n <= |rs|
    ensures Moves(rs[..n], k, c) <= Moves(rs, k, c)
  {
    hide Written;
    if n < |rs| {
      MovesRise(rs[..|rs| - 1], n, k, c);
      assert rs[..|rs| - 1][..n] == rs[..n];
    } else {
      assert rs[..n] == rs;
    }
  }

  lemma {:induction false} StaysSane(first: Table, rs: seq<Recompute>, k: string, c: DriftConfig, inverted: bool)
    requires AllSane(first, rs, k, c, inverted)
    ensures k in After(first, rs, c) && NonNegative(After(first, rs, c)[k])
  {
    if rs != [] {
      hide AllSane, After, Written, NonNegative, Held, Moves;
      PrefixSane(first, rs, |rs| - 1, k, c, inverted);
      StaysSane(first, rs[..|rs| - 1], k, c, inverted);
      LastWrite(first, rs, k, c, inverted);
    }
  }

  /** The prior the last recompute compared the key with stood after some part of the series. */
  lemma LastSeen(first: Table, rs: seq<Recompute>, k: string, c: DriftConfig, inverted: bool) returns (j: nat)
    requires rs != [] && AllSane(first, rs, k, c, inverted)
    ensures j < |rs| && AllSane(first, rs[..j], k, c, inverted)
    ensures k in rs[|rs| - 1].seen && k in After(first, rs[..j], c)
    ensures rs[|rs| - 1].seen[k] == After(first, rs[..j], c)[k]
    ensures Moves(rs[..j], k, c) <= Moves(rs[..|rs| - 1], k, c)
  {
    hide After, Moves, NonNegative;
    assert Sane(first, rs, |rs| - 1, k, c, inverted);
    j :| 0 <= j <= |rs| - 1 && SeenAt(first, rs, |rs| - 1, j, k, c);
    PrefixSane(first, rs, j, k, c, inverted);
    MovesRise(rs[..|rs| - 1], j, k, c);
    assert rs[..|rs| - 1][..j] == rs[..j];
  }

  /** Over any series of recomputes, however old the priors their lookups answered, the median of a key grows by at most
      (1 + t) per recompute that wrote it. */
  lemma {:induction false} MedianRatchet(first: Table, rs: seq<Recompute>, k: string, c: DriftConfig, inverted: bool)
    requires AllSane(first, rs, k, c, inverted) && c.p50Threshold >= 0.0
    ensures k in After(first, rs, c)
    ensures AtMostPow(After(first, rs, c)[k].p50, 1.0 + c.p50Threshold, Moves(rs, k, c), first[k].p50)
    decreases |rs|
  {
    var b := 1.0 + c.p50Threshold;
    if rs == [] {
      PowStart(b, first[k].p50);
    } else {
      hide AtMostPow, AtLeastPow, AllSane, After, Written, Held, Moves;
      SaneStart(first, rs, k, c, inverted);
      var r, p := rs[|rs| - 1], rs[..|rs| - 1];
      PrefixSane(first, rs, |rs| - 1, k, c, inverted);
      MedianRatchet(first, p, k, c, inverted);
      LastWrite(first, rs, k, c, inverted);
      var j := LastSeen(first, rs, k, c, inverted);
      MedianRatchet(first, rs[..j], k, c, inverted);
      StaysSane(first, rs[..j], k, c, inverted);
      var w := Written(r, r.rows, k, c);
      if w.Some? {
        MedianStep(r.seen[k], w.value, c, inverted, Moves(rs[..j], k, c), first[k].p50);
        PowMore(w.value.p50, b, Moves(rs[..j], k, c) + 1, Moves(rs, k, c), first[k].p50);
      }
    }
  }

  lemma SaneStart(first: Table, rs: seq<Recompute>, k: string, c: DriftConfig, inverted: bool)
    requires AllSane(first, rs, k, c, inverted)
    ensures k in first && NonNegative(first[k])
  {}

  /** No prior the series compared the key with has a tail of 0. */
  ghost predicate TailsPositive(rs: seq<Recompute>, k: string) {
    forall i :: 0 <= i < |rs| && k in rs[i].seen ==> rs[i].seen[k].p99 > 0.0
  }

  /** So does the tail, as long as every prior tail is positive. */
  lemma {:induction false} TailRatchet(first: Table, rs: seq<Recompute>, k: string, c: DriftConfig, inverted: bool)
    requires AllSane(first, rs, k, c, inverted) && c.p99Threshold >= 0.0 && TailsPositive(rs, k)
    ensures k in After(first, rs, c)
    ensures AtMostPow(After(first, rs, c)[k].p99, 1.0 + c.p99Threshold, Moves(rs, k, c), first[k].p99)
    decreases |rs|
  {
    var b := 1.0 + c.p99Threshold;
    if rs == [] {
      PowStart(b, first[k].p99);
    } else {
      hide AtMostPow, AtLeastPow, AllSane, After, Written, Held, Moves;
      SaneStart(first, rs, k, c, inverted);
      var r, p := rs[|rs| - 1], rs[..|rs| - 1];
      PrefixSane(first, rs, |rs| - 1, k, c, inverted);
      TailRatchet(first, p, k, c, inverted);
      LastWrite(first, rs, k, c, inverted);
      var j := LastSeen(first, rs, k, c, inverted);
      TailRatchet(first, rs[..j], k, c, inverted);
      StaysSane(first, rs[..j], k, c, inverted);
      var w := Written(r, r.rows, k, c);
      if w.Some? {
        TailStep(r.seen[k], w.value, c, inverted, Moves(rs[..j], k, c), first[k].p99);
        PowMore(w.value.p99, b, Moves(rs[..j], k, c) + 1, Moves(rs, k, c), first[k].p99);
      }
    }
  }

  /** A feature with an inverted consumer cannot sink faster either. */
  lemma {:induction false} InvertedFloor(first: Table, rs: seq<Recompute>, k: string, c: DriftConfig)
    requires AllSane(first, rs, k, c, true) && 0.0 <= c.p50Threshold <= 1.0 && 0.0 <= c.p99Threshold <= 1.0
    ensures k in After(first, rs, c)
    ensures AtLeastPow(After(first, rs, c)[k].p50, 1.0 - c.p50Threshold, Moves(rs, k, c), first[k].p50)
    ensures AtLeastPow(After(first, rs, c)[k].p99, 1.0 - c.p99Threshold, Moves(rs, k, c), first[k].p99)
    decreases |rs|
  {
    var b, d := 1.0 - c.p50Threshold, 1.0 - c.p99Threshold;
    if rs == [] {
      PowStart(b, first[k].p50);
      PowStart(d, first[k].p99);
    } else {
      hide AtMostPow, AtLeastPow, AllSane, After, Written, Held, Moves;
      SaneStart(first, rs, k, c, true);
      var r, p := rs[|rs| - 1], rs[..|rs| - 1];
      PrefixSane(first, rs, |rs| - 1, k, c, true);
      InvertedFloor(first, p, k, c);
      LastWrite(first, rs, k, c, true);
      var j := LastSeen(first, rs, k, c, true);
      InvertedFloor(first, rs[..j], k, c);
      StaysSane(first, rs[..j], k, c, true);
      var w, n := Written(r, r.rows, k, c), Moves(rs[..j], k, c);
      if w.Some? {
        FloorStep(r.seen[k], w.value, c, n, first[k].p50);
        TailFloorStep(r.seen[k], w.value, c, n, first[k].p99);
        PowMore(w.value.p50, b, n + 1, Moves(rs, k, c), first[k].p50);
        PowMore(w.value.p99, d, n + 1, Moves(rs, k, c), first[k].p99);
      }
    }
  }

  /** A lookup that misses a baseline the table holds lets any recompute through. */
  lemma MissedPriorUnguarded(first: Table, k: string, pair: Pair, c: DriftConfig, inverted: bool)
    ensures var t := After(first, [Recompute(map[], [Row(k, pair, inverted)])], c); k in t && t[k] == pair
  {
    var row := Row(k, pair, inverted);
    var r := Recompute(map[], [row]);
    assert [row][..0] == [] && [r][..0] == [];
    assert KeptRows(map[], [row], c) == [row];
    assert Inserted(first, [row]) == first[k := pair];
  }

  lemma Shrunk(t: real, g: real)
    requires 0.0 <= t && g >= 0.0
    ensures (1.0 - t) * g <= g
  {
    assert (1.0 - t) * g == g - t * g && t * g >= 0.0;
  }

  /** Without an inverted consumer, a recompute in which neither percentile rises is always applied. */
  lemma SaferAlwaysApplies(was: Pair, now: Pair, c: DriftConfig)
    requires now.p50 <= was.p50 && now.p99 <= was.p99
    ensures !Held(was, now, c, false)
  {}

  /** The tail's bound on one step holds for every applied recompute exactly when the prior tail is positive: from 0
      the guard lets any tail through. */
  lemma TailGuardedIffPositive(was: Pair, c: DriftConfig, inverted: bool)
    requires NonNegative(was) && c.p99Threshold >= 0.0 && c.p50Threshold >= 0.0
    ensures (forall now :: NonNegative(now) && !Held(was, now, c, inverted) ==>
               Guarded(now.p99) <= (1.0 + c.p99Threshold) * Guarded(was.p99))
            <==> was.p99 > 0.0
  {
    if was.p99 > 0.0 {
      forall now | NonNegative(now) && !Held(was, now, c, inverted)
        ensures Guarded(now.p99) <= (1.0 + c.p99Threshold) * Guarded(was.p99)
      {
        StepBound(was.p99, now.p99, c.p99Threshold);
      }
    } else {
      var now := Pair(was.p50, (1.0 + c.p99Threshold) * Guarded(was.p99) + 1.0);
      assert (1.0 + c.p99Threshold) * Guarded(was.p99) >= 0.0;
      SameNeverDrifts(was.p50, c.p50Threshold);
      assert !Held(was, now, c, inverted);
    }
  }

  lemma SameNeverDrifts(x: real, t: real)
    requires x >= 0.0 && t >= 0.0
    ensures !CheckDrift(x, x, t)
  {
    if x != 0.0 { assert 0.0 / (Abs(x) + RATIO_EPSILON) == 0.0; }
  }
}
