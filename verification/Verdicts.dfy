/** Risk bands, the filters of the alerts views, and the sidecar verdict merged onto a stored score
    (`score_to_band`, `_merge_contract_anomaly`, `_passes_score_band`, `_within_analyzed_window`). */
module Verdicts {
  import opened Collections

  datatype Band = Informational | Moderate | High | Critical

  function ScoreToBand(score: real): Band {
    if score >= 80.0 then Critical
    else if score >= 60.0 then High
    else if score > 30.0 then Moderate
    else Informational
  }

  function Rank(b: Band): nat {
    match b case Critical => 4 case High => 3 case Moderate => 2 case Informational => 1
  }

  /** Scores and bands rise together. */
  lemma BandRises(a: real, b: real)
    ensures a <= b ==> Rank(ScoreToBand(a)) <= Rank(ScoreToBand(b))
    ensures Rank(ScoreToBand(a)) < Rank(ScoreToBand(b)) ==> a < b
  {}

  /** The bands start at 80, 60 and just above 30. */
  lemma BandsStart(score: real)
    ensures ScoreToBand(score) == Critical <==> 80.0 <= score
    ensures ScoreToBand(score) == High <==> 60.0 <= score < 80.0
    ensures ScoreToBand(score) == Moderate <==> 30.0 < score < 60.0
    ensures ScoreToBand(score) == Informational <==> score <= 30.0
  {}

  /** A stored band: a current one, or the label "Low" that rows from before the renaming still carry. */
  datatype StoredBand = Current(band: Band) | LegacyLow

  /** `RiskBand(stored_value)`: the legacy label reads as Informational. */
  function Parsed(b: StoredBand): Band {
    match b case Current(band) => band case LegacyLow => Informational
  }

  /** A stored score row with its winning class. An empty contract names none. */
  datatype Stored = Stored(hash: string, contract: string, score: real, band: StoredBand, attack: string,
                           analyzedAt: int, corroboration: nat)

  /** A sidecar verdict, projected onto the score scale, and whether its model calls the contract un-clusterable. */
  datatype Verdict = Verdict(score: real, target: string, unclusterable: bool)

  /** The class of the sidecar's verdicts, which no stored row has. */
  const CONTRACT_ANOMALY := "contract_anomaly"

  /** `resolve`: the first of the highest-scoring verdicts. */
  function Resolve(vs: seq<Verdict>): Option<Verdict> {
    if vs == [] then None
    else
      match Resolve(vs[..|vs| - 1])
      case None => Some(vs[|vs| - 1])
      case Some(best) => Some(if vs[|vs| - 1].score > best.score then vs[|vs| - 1] else best)
  }

  /** What a transaction's alert shows once its verdicts are merged. */
  datatype Effective = Effective(contract: string, score: real, band: Band, attack: string, anomaly: bool,
                                 unclusterable: bool)

  function Unmerged(r: Stored): Effective {
    Effective(r.contract, r.score, Parsed(r.band), r.attack, false, false)
  }

  function Merged(r: Stored, vs: seq<Verdict>): (e: Effective)
    ensures e.score >= r.score && (e.anomaly <==> e.score > r.score)
  {
    match Resolve(vs)
    case Some(v) =>
      if v.score > r.score then
        Effective(v.target, v.score, ScoreToBand(v.score), CONTRACT_ANOMALY, true, v.unclusterable)
      else Unmerged(r)
    case None => Unmerged(r)
  }

  /** `v` is the first of the highest-scoring verdicts. */
  ghost predicate IsHighest(vs: seq<Verdict>, v: Verdict) {
    exists i :: 0 <= i < |vs| && HighestAt(vs, i, v)
  }

  ghost predicate HighestAt(vs: seq<Verdict>, i: nat, v: Verdict)
    requires i < |vs|
  {
    && v == vs[i] && (forall j :: 0 <= j < |vs| ==> vs[j].score <= v.score)
    && forall j :: 0 <= j < i ==> vs[j].score < v.score
  }

  lemma HighestExtends(p: seq<Verdict>, i: nat, v: Verdict, w: Verdict)
    requires i < |p| && HighestAt(p, i, v)
    ensures if w.score > v.score then HighestAt(p + [w], |p|, w) else HighestAt(p + [w], i, v)
  {}

  lemma {:induction false} ResolvesToHighest(vs: seq<Verdict>)
    ensures if vs == [] then Resolve(vs) == None else Resolve(vs).Some? && IsHighest(vs, Resolve(vs).value)
  {
    if vs != [] {
      hide HighestAt;
      var n := |vs| - 1;
      var p := vs[..n];
      ResolvesToHighest(p);
      assert vs == p + [vs[n]];
      if p == [] {
        assert HighestAt(vs, 0, vs[0]) by { OnlyOne(vs); }
      } else {
        var i :| 0 <= i < n && HighestAt(p, i, Resolve(p).value);
        HighestExtends(p, i, Resolve(p).value, vs[n]);
      }
    }
  }

  lemma OnlyOne(vs: seq<Verdict>)
    requires |vs| == 1
    ensures HighestAt(vs, 0, vs[0])
  {}

  /** `e` is what the row shows: itself while no verdict scores higher, and otherwise its first highest verdict, under
      the sidecar's class. */
  ghost predicate IsShown(r: Stored, vs: seq<Verdict>, e: Effective) {
    if forall i :: 0 <= i < |vs| ==> vs[i].score <= r.score then
      e.contract == r.contract && e.score == r.score && e.attack == r.attack && !e.anomaly && !e.unclusterable
      && (r.band.Current? ==> e.band == r.band.band) && (r.band.LegacyLow? ==> e.band == Informational)
    else
      exists v :: IsHighest(vs, v) && e.contract == v.target && e.score == v.score && e.band == ScoreToBand(v.score)
                  && e.attack == "contract_anomaly" && e.anomaly && e.unclusterable == v.unclusterable
  }

  lemma MergedIsShown(r: Stored, vs: seq<Verdict>)
    ensures IsShown(r, vs, Merged(r, vs))
  {
    hide Resolve, ScoreToBand;
    ResolvesToHighest(vs);
  }

  /** A view's filter; an empty band set restricts nothing. */
  datatype Filter = Filter(minScore: real, bands: set<Band>, from: Option<int>, to: Option<int>, minCorroboration: nat)

  predicate InWindow(f: Filter, at: int) {
    (f.from.Some? ==> f.from.value <= at) && (f.to.Some? ==> at < f.to.value)
  }

  /** The filter as the reconciliation applies it to a hydrated row. */
  predicate Passes(f: Filter, score: real, band: Band, at: int, corroboration: nat) {
    && InWindow(f, at)
    && !(f.minScore > 0.0 && score < f.minScore)
    && (f.bands != {} ==> band in f.bands)
    && !(f.minCorroboration > 0 && corroboration < f.minCorroboration)
  }

  /** The filter as the database applies it: the stored label itself must be among the bands. */
  predicate SqlPasses(f: Filter, r: Stored) {
    && InWindow(f, r.analyzedAt)
    && (f.minScore > 0.0 ==> r.score >= f.minScore)
    && (f.bands != {} ==> r.band.Current? && r.band.band in f.bands)
    && (f.minCorroboration > 0 ==> r.corroboration >= f.minCorroboration)
  }

  /** Windows that meet share no time and lose none. */
  lemma WindowsMeet(f: Filter, from: Option<int>, mid: int, to: Option<int>, at: int)
    requires (from.Some? ==> from.value <= mid) && (to.Some? ==> mid <= to.value)
    ensures var early := InWindow(f.(from := from, to := Some(mid)), at);
            var late := InWindow(f.(from := Some(mid), to := to), at);
            !(early && late) && (early || late <==> InWindow(f.(from := from, to := to), at))
    ensures InWindow(f.(from := None, to := None), at)
  {}

  /** What passes a filter is what passes without its other limits and meets each of them, the least score and
      corroboration included. */
  lemma FilterParts(f: Filter, score: real, band: Band, at: int, corroboration: nat)
    ensures Passes(f, score, band, at, corroboration) <==>
              && Passes(Filter(0.0, {}, f.from, f.to, 0), score, band, at, corroboration)
              && (f.minScore <= 0.0 || score >= f.minScore) && (f.bands == {} || band in f.bands)
              && corroboration >= f.minCorroboration
    ensures Passes(Filter(0.0, {}, f.from, f.to, 0), score, band, at, corroboration) <==> InWindow(f, at)
  {}

  predicate StoredPasses(f: Filter, r: Stored) {
    Passes(f, r.score, Parsed(r.band), r.analyzedAt, r.corroboration)
  }

  predicate EffectivePasses(f: Filter, r: Stored, e: Effective) {
    Passes(f, e.score, e.band, r.analyzedAt, r.corroboration)
  }

  /** The two filters differ exactly on rows with the legacy label under a band filter that asks for Informational. */
  lemma FiltersDiffer(f: Filter, r: Stored)
    ensures SqlPasses(f, r) ==> StoredPasses(f, r)
    ensures StoredPasses(f, r) ==> (!SqlPasses(f, r) <==> r.band.LegacyLow? && Informational in f.bands)
  {}
}
