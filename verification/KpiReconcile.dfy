/** The KPI aggregate patched to the effective verdicts (`_augment_stats_with_contract_anomaly`). */
module KpiReconcile {
  import opened Collections
  import opened Verdicts

  /** The lowest score that counts as a finding. */
  const FINDING_MIN_SCORE := 1.0

  /** A scored transaction: its stored score and band, and the sidecar's score if it is flagged. */
  datatype Scored = Scored(score: real, band: StoredBand, anomaly: Option<real>)

  /** Whether the sidecar's score beats the stored one. */
  predicate Raised(t: Scored) {
    t.anomaly.Some? && t.anomaly.value > t.score
  }

  /** The aggregate: how many rows each band holds, and the mean score and number of the findings. */
  datatype Stats = Stats(counts: map<Band, int>, mean: real, findings: int)

  /** The band a row is counted under once patched: the more severe of the two. */
  function PatchedBand(t: Scored): Band {
    if t.anomaly.Some? && Rank(ScoreToBand(t.anomaly.value)) > Rank(Parsed(t.band)) then ScoreToBand(t.anomaly.value)
    else Parsed(t.band)
  }

  /** The score and band the merged alert itself shows. */
  function EffectiveScore(t: Scored): real {
    if Raised(t) then t.anomaly.value else t.score
  }

  function EffectiveBand(t: Scored): Band {
    if Raised(t) then ScoreToBand(t.anomaly.value) else Parsed(t.band)
  }

  function StoredIn(ts: seq<Scored>, b: Band): nat {
    if ts == [] then 0 else StoredIn(ts[1..], b) + if Parsed(ts[0].band) == b then 1 else 0
  }

  function PatchedIn(ts: seq<Scored>, b: Band): nat {
    if ts == [] then 0 else PatchedIn(ts[1..], b) + if PatchedBand(ts[0]) == b then 1 else 0
  }

  function EffectiveIn(ts: seq<Scored>, b: Band): nat {
    if ts == [] then 0 else EffectiveIn(ts[1..], b) + if EffectiveBand(ts[0]) == b then 1 else 0
  }

  function StoredFindings(ts: seq<Scored>): nat {
    if ts == [] then 0 else StoredFindings(ts[1..]) + if ts[0].score >= FINDING_MIN_SCORE then 1 else 0
  }

  function StoredSum(ts: seq<Scored>): real {
    if ts == [] then 0.0 else StoredSum(ts[1..]) + if ts[0].score >= FINDING_MIN_SCORE then ts[0].score else 0.0
  }

  function EffectiveFindings(ts: seq<Scored>): nat {
    if ts == [] then 0 else EffectiveFindings(ts[1..]) + if EffectiveScore(ts[0]) >= FINDING_MIN_SCORE then 1 else 0
  }

  function EffectiveSum(ts: seq<Scored>): real {
    if ts == [] then 0.0
    else EffectiveSum(ts[1..]) + if EffectiveScore(ts[0]) >= FINDING_MIN_SCORE then EffectiveScore(ts[0]) else 0.0
  }

  // ---------------------------------------------------------------- the totals, row by row

  /** The higher of the stored and the sidecar's score. */
  function Higher(t: Scored): real {
    if t.anomaly.None? || t.anomaly.value <= t.score then t.score else t.anomaly.value
  }

  /** Neither the stored band nor the sidecar's is more severe than this, which is one of the two. */
  ghost predicate MoreSevere(t: Scored, b: Band) {
    && Rank(Parsed(t.band)) <= Rank(b) && (b == Parsed(t.band) || t.anomaly.Some?)
    && (t.anomaly.Some? ==>
          Rank(ScoreToBand(t.anomaly.value)) <= Rank(b) && (b == Parsed(t.band) || b == ScoreToBand(t.anomaly.value)))
  }

  function AtLeastOne(ts: seq<Scored>): set<nat> {
    set i: nat | i < |ts| && Higher(ts[i]) >= 1.0
  }

  ghost function InBand(ts: seq<Scored>, b: Band): set<nat> {
    set i: nat | i < |ts| && MoreSevere(ts[i], b)
  }

  lemma SameRank(a: Band, b: Band)
    ensures Rank(a) == Rank(b) ==> a == b
  {}

  lemma PatchedIsMoreSevere(t: Scored, b: Band)
    ensures PatchedBand(t) == b <==> MoreSevere(t, b)
  {
    SameRank(PatchedBand(t), b);
  }

  lemma ShiftedSize(a: set<nat>, b: set<nat>, first: bool)
    requires forall i: nat :: i in a <==> (i > 0 && i - 1 in b) || (i == 0 && first)
    ensures |a| == |b| + if first then 1 else 0
  {
    var up := set i: nat | i in b :: i + 1;
    UpSize(b, up);
    assert a == up + if first then {0} else {};
  }

  lemma {:induction false} UpSize(b: set<nat>, up: set<nat>)
    requires forall i: nat :: i in up <==> i > 0 && i - 1 in b
    ensures |up| == |b|
    decreases b
  {
    if b == {} {
      assert up == {};
    } else {
      var x :| x in b;
      UpSize(b - {x}, up - {x + 1});
    }
  }

  /** The findings are the rows whose higher score is at least 1, and a band's count is the number of rows of which it
      is the more severe band. */
  lemma {:induction false} CountsAreSizes(ts: seq<Scored>, b: Band)
    ensures EffectiveFindings(ts) == |AtLeastOne(ts)| && PatchedIn(ts, b) == |InBand(ts, b)|
  {
    if ts != [] {
      hide MoreSevere, Higher, EffectiveScore;
      CountsAreSizes(ts[1..], b);
      assert EffectiveScore(ts[0]) == Higher(ts[0]) by { ShowsTheHigher(ts[0]); }
      PatchedIsMoreSevere(ts[0], b);
      ShiftedSize(AtLeastOne(ts), AtLeastOne(ts[1..]), Higher(ts[0]) >= 1.0);
      ShiftedSize(InBand(ts, b), InBand(ts[1..], b), MoreSevere(ts[0], b));
    }
  }

  lemma ShowsTheHigher(t: Scored)
    ensures EffectiveScore(t) == Higher(t)
  {}

  /** The sum of the findings takes each row at its higher score, once. */
  lemma {:induction false} SumTakesEach(ts: seq<Scored>, i: nat, t: Scored)
    requires i < |ts|
    ensures EffectiveSum(ts[i := t]) + (if Higher(ts[i]) >= 1.0 then Higher(ts[i]) else 0.0)
         == EffectiveSum(ts) + if Higher(t) >= 1.0 then Higher(t) else 0.0
    decreases |ts|
  {
    var more := ts[i := t];
    if i > 0 {
      SumTakesEach(ts[1..], i - 1, t);
      assert more[1..] == ts[1..][i - 1 := t];
    } else {
      assert more[1..] == ts[1..];
    }
  }

  lemma {:induction false} NoFindingsNoSum(ts: seq<Scored>)
    requires forall i :: 0 <= i < |ts| ==> Higher(ts[i]) < 1.0
    ensures EffectiveSum(ts) == 0.0
  {
    if ts != [] { NoFindingsNoSum(ts[1..]); }
  }

  /** The stored aggregate of the rows; without findings the mean is absent and read as 0. */
  ghost predicate IsStoredStats(ts: seq<Scored>, s: Stats) {
    && AllBands(s.counts)
    && (forall b :: b in s.counts ==> s.counts[b] == StoredIn(ts, b))
    && s.findings == StoredFindings(ts)
    && s.mean * s.findings as real == StoredSum(ts)
  }

  predicate AllBands(counts: map<Band, int>) {
    counts.Keys == {Informational, Moderate, High, Critical}
  }

  /** The counts once a row has left its stored band for a more severe one. */
  function Moved(counts: map<Band, int>, t: Scored): map<Band, int>
    requires AllBands(counts)
  {
    var sb, pb := Parsed(t.band), PatchedBand(t);
    if pb != sb then
      var left := counts[sb := if counts[sb] >= 1 then counts[sb] - 1 else 0];
      left[pb := left[pb] + 1]
    else counts
  }

  /** What the row adds to the sum of findings already in the mean, and to the sum and number of those entering it. */
  function Delta(t: Scored): real {
    if Raised(t) && t.score >= FINDING_MIN_SCORE then t.anomaly.value - t.score else 0.0
  }

  predicate Entering(t: Scored) {
    Raised(t) && t.score < FINDING_MIN_SCORE && t.anomaly.value >= FINDING_MIN_SCORE
  }

  /** The counts with the rows before `rest` patched. */
  ghost predicate Patched(ts: seq<Scored>, rest: seq<Scored>, counts: map<Band, int>) {
    AllBands(counts) && forall b :: b in counts ==> PatchedAt(ts, rest, counts[b], b)
  }

  ghost predicate PatchedAt(ts: seq<Scored>, rest: seq<Scored>, count: int, b: Band) {
    count == PatchedIn(ts, b) - PatchedIn(rest, b) + StoredIn(rest, b) && PatchedIn(ts, b) >= PatchedIn(rest, b)
  }

  lemma RowPatched(ts: seq<Scored>, rest: seq<Scored>, counts: map<Band, int>)
    requires rest != [] && Patched(ts, rest, counts)
    ensures AllBands(counts)
    ensures Patched(ts, rest[1..], Moved(counts, rest[0]))
  {
    forall b | b in counts ensures PatchedAt(ts, rest[1..], Moved(counts, rest[0])[b], b) {
      assert PatchedAt(ts, rest, counts[b], b);
      RowPatchedAt(ts, rest, counts, b);
    }
  }

  lemma RowPatchedAt(ts: seq<Scored>, rest: seq<Scored>, counts: map<Band, int>, b: Band)
    requires rest != [] && b in counts && PatchedAt(ts, rest, counts[b], b)
    requires AllBands(counts)
    ensures PatchedAt(ts, rest[1..], Moved(counts, rest[0])[b], b)
  {
    hide ScoreToBand;
  }

  /** The loop over the flagged rows. */
  method Tally(ts: seq<Scored>, stored: map<Band, int>)
    returns (counts: map<Band, int>, deltaSum: real, enteringSum: real, entering: nat)
    requires AllBands(stored) && forall b :: b in stored ==> stored[b] == StoredIn(ts, b)
    ensures Patched(ts, [], counts)
    ensures entering == EffectiveFindings(ts) - StoredFindings(ts)
    ensures deltaSum + enteringSum == EffectiveSum(ts) - StoredSum(ts)
    ensures deltaSum >= 0.0 && enteringSum >= 0.0 && (entering == 0 ==> enteringSum == 0.0)
  {
    hide Patched;
    counts, deltaSum, enteringSum, entering := stored, 0.0, 0.0, 0;
    NothingPatched(ts, stored);
    ghost var rest := ts;
    for i := 0 to |ts|
      invariant rest == ts[i..]
      invariant Patched(ts, rest, counts)
      invariant entering
                  == EffectiveFindings(ts) - EffectiveFindings(rest) - (StoredFindings(ts) - StoredFindings(rest))
      invariant deltaSum + enteringSum == EffectiveSum(ts) - EffectiveSum(rest) - (StoredSum(ts) - StoredSum(rest))
      invariant deltaSum >= 0.0 && enteringSum >= 0.0 && (entering == 0 ==> enteringSum == 0.0)
    {
      assert rest[0] == ts[i];
      RowPatched(ts, rest, counts);
      counts := Moved(counts, ts[i]);
      deltaSum := deltaSum + Delta(ts[i]);
      if Entering(ts[i]) { enteringSum, entering := enteringSum + ts[i].anomaly.value, entering + 1; }
      rest := rest[1..];
    }
  }

  lemma NothingPatched(ts: seq<Scored>, counts: map<Band, int>)
    requires AllBands(counts) && forall b :: b in counts ==> counts[b] == StoredIn(ts, b)
    ensures Patched(ts, ts, counts)
  {}

  /** `_augment_stats_with_contract_anomaly`. */
  method Augment(ts: seq<Scored>, s: Stats) returns (p: Stats)
    requires IsStoredStats(ts, s)
    ensures p.counts.Keys == s.counts.Keys && forall b :: b in p.counts ==> p.counts[b] == PatchedIn(ts, b)
    ensures forall b :: b in p.counts ==> p.counts[b] == |InBand(ts, b)|
    ensures p.findings == EffectiveFindings(ts) == |AtLeastOne(ts)|
    ensures p.mean * p.findings as real == EffectiveSum(ts)
  {
    hide Patched, PatchedIn, StoredIn, EffectiveSum, StoredSum, EffectiveFindings, StoredFindings;
    forall b: Band ensures EffectiveFindings(ts) == |AtLeastOne(ts)| && PatchedIn(ts, b) == |InBand(ts, b)| {
      CountsAreSizes(ts, b);
    }
    hide InBand, AtLeastOne;
    var counts, deltaSum, enteringSum, entering := Tally(ts, s.counts);
    AllPatched(ts, counts);
    NothingToAdd(ts);
    var denominator := s.findings + entering;
    if (deltaSum != 0.0 || entering != 0) && denominator > 0 {
      var total := s.mean * s.findings as real + deltaSum + enteringSum;
      MeanTimes(total, denominator);
      p := Stats(counts, total / denominator as real, denominator);
    } else {
      p := Stats(counts, s.mean, s.findings);
    }
  }

  lemma AllPatched(ts: seq<Scored>, counts: map<Band, int>)
    requires Patched(ts, [], counts)
    ensures AllBands(counts) && forall b :: b in counts ==> counts[b] == PatchedIn(ts, b)
  {
    forall b | b in counts ensures counts[b] == PatchedIn(ts, b) { assert PatchedAt(ts, [], counts[b], b); }
  }

  lemma MeanTimes(total: real, n: nat)
    requires n > 0
    ensures (total / n as real) * n as real == total
  {}

  /** Without findings, stored or entering, there is no score to average. */
  lemma {:induction false} NothingToAdd(ts: seq<Scored>)
    ensures EffectiveFindings(ts) >= StoredFindings(ts)
    ensures EffectiveFindings(ts) == 0 ==> EffectiveSum(ts) == 0.0 && StoredSum(ts) == 0.0
  {
    if ts != [] { NothingToAdd(ts[1..]); }
  }

  /** No row is lost or counted twice by the patch. */
  lemma {:induction false} TotalConserved(ts: seq<Scored>)
    ensures PatchedIn(ts, Informational) + PatchedIn(ts, Moderate) + PatchedIn(ts, High) + PatchedIn(ts, Critical)
              == |ts|
    ensures StoredIn(ts, Informational) + StoredIn(ts, Moderate) + StoredIn(ts, High) + StoredIn(ts, Critical) == |ts|
  {
    if ts != [] { TotalConserved(ts[1..]); }
  }

  /** The patched band is the band the merged alert shows exactly when the sidecar's band and score outrank the stored
      ones together: in particular whenever the stored band matches its score. */
  lemma PatchedIsEffective(t: Scored)
    ensures PatchedBand(t) == EffectiveBand(t)
            <==> (t.anomaly.Some? ==> if Raised(t) then Rank(ScoreToBand(t.anomaly.value)) >= Rank(Parsed(t.band))
                                      else Rank(ScoreToBand(t.anomaly.value)) <= Rank(Parsed(t.band)))
    ensures Parsed(t.band) == ScoreToBand(t.score) ==> PatchedBand(t) == EffectiveBand(t)
  {
    if t.anomaly.Some? {
      BandRises(t.score, t.anomaly.value);
      BandRises(t.anomaly.value, t.score);
    }
  }

  /** So with stored bands that match their scores the patched counts are the counts of the effective bands. */
  lemma {:induction false} CountsAreEffective(ts: seq<Scored>, b: Band)
    requires forall i :: 0 <= i < |ts| ==> Parsed(ts[i].band) == ScoreToBand(ts[i].score)
    ensures PatchedIn(ts, b) == EffectiveIn(ts, b)
  {
    if ts != [] {
      PatchedIsEffective(ts[0]);
      CountsAreEffective(ts[1..], b);
    }
  }
}
