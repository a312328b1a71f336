/** Contract groups reconciled to the effective verdict (`_augment_groups_with_contract_anomaly`). */
module GroupReconcile {
  import opened Collections
  import opened Verdicts

  type Flagged = map<string, seq<Verdict>>

  /** What a group shows of its worst alert. */
  datatype Face = Face(score: real, band: StoredBand, attack: string, unclusterable: bool)

  /** A group: its alert count, its worst alert, the classes in it and the time of its newest alert. */
  datatype Group = Group(count: int, worst: Face, attacks: set<string>, latest: int)
  type Groups = map<string, Group>

  ghost predicate DistinctHashes(stored: set<Stored>) {
    forall a, b :: a in stored && b in stored && a.hash == b.hash ==> a == b
  }

  function EffectiveOf(r: Stored, flagged: Flagged): Effective {
    Merged(r, if r.hash in flagged then flagged[r.hash] else [])
  }

  function StoredFace(r: Stored): Face {
    Face(r.score, r.band, r.attack, false)
  }

  function EffectiveFace(r: Stored, flagged: Flagged): Face {
    var e := EffectiveOf(r, flagged);
    Face(e.score, Current(e.band), e.attack, e.unclusterable)
  }

  // ---------------------------------------------------------------- what the view promises

  /** The stored rows the database counts under a contract. */
  function SqlMembers(stored: set<Stored>, f: Filter, c: string): set<Stored> {
    set r | r in stored && SqlPasses(f, r) && r.contract == c
  }

  /** The flagged rows whose effective verdict passes and names the contract. */
  function EffectiveMembers(rows: set<Stored>, flagged: Flagged, f: Filter, anomalyOnly: bool, c: string): set<Stored> {
    set r | r in rows && Counted(r, flagged, f, anomalyOnly) && EffectiveOf(r, flagged).contract == c
  }

  /** Whether the row counts under its effective contract. */
  predicate Counted(r: Stored, flagged: Flagged, f: Filter, anomalyOnly: bool) {
    var e := EffectiveOf(r, flagged);
    e.contract != "" && EffectivePasses(f, r, e) && (anomalyOnly ==> e.anomaly)
  }

  /** Whether the code takes the row as already counted by the database under its stored contract. */
  predicate TakenAsCounted(r: Stored, f: Filter, anomalyOnly: bool) {
    !anomalyOnly && r.contract != "" && StoredPasses(f, r)
  }

  function FlaggedRows(stored: set<Stored>, flagged: Flagged): set<Stored> {
    set r | r in stored && r.hash in flagged
  }

  function Members(stored: set<Stored>, flagged: Flagged, f: Filter, anomalyOnly: bool, c: string): set<Stored> {
    (if anomalyOnly then {} else SqlMembers(stored, f, c))
    + EffectiveMembers(FlaggedRows(stored, flagged), flagged, f, anomalyOnly, c)
  }

  /** The members the code leaves out: taken as counted although the database did not count them. */
  function Missed(stored: set<Stored>, flagged: Flagged, f: Filter, anomalyOnly: bool, c: string): set<Stored> {
    set r | r in EffectiveMembers(FlaggedRows(stored, flagged), flagged, f, anomalyOnly, c)
            && TakenAsCounted(r, f, anomalyOnly) && r.contract == c && !SqlPasses(f, r)
  }

  function CountOf(groups: Groups, c: string): int {
    if c in groups then groups[c].count else 0
  }

  /** The database's grouping, not truncated: one group per contract with members, counting them. */
  ghost predicate IsSqlGrouping(stored: set<Stored>, f: Filter, groups: Groups) {
    && "" !in groups
    && forall c :: c != "" ==>
         && CountOf(groups, c) == |SqlMembers(stored, f, c)|
         && (c in groups <==> SqlMembers(stored, f, c) != {})
         && (c in groups ==> Shows(groups[c], SqlMembers(stored, f, c), {}, map[]))
  }

  /** `worst` is the face of a highest-scoring row among `plain` rows as stored and `eff` rows as merged. */
  ghost predicate IsWorst(worst: Face, plain: set<Stored>, eff: set<Stored>, flagged: Flagged) {
    && (forall r :: r in plain ==> r.score <= worst.score)
    && (forall r :: r in eff ==> EffectiveFace(r, flagged).score <= worst.score)
    && (|| (exists r :: r in plain && StoredFace(r) == worst)
        || (exists r :: r in eff && EffectiveFace(r, flagged) == worst))
  }

  ghost predicate IsLatest(latest: int, rows: set<Stored>) {
    (forall r :: r in rows ==> r.analyzedAt <= latest) && exists r :: r in rows && r.analyzedAt == latest
  }

  /** The classes of the rows as stored and as merged. */
  function Attacks(plain: set<Stored>, eff: set<Stored>, flagged: Flagged): set<string> {
    (set r | r in plain :: r.attack) + (set r | r in eff :: EffectiveFace(r, flagged).attack)
  }

  /** The group shows its members' worst alert, classes and newest time. */
  ghost predicate Shows(g: Group, plain: set<Stored>, eff: set<Stored>, flagged: Flagged) {
    && IsWorst(g.worst, plain, eff, flagged) && IsLatest(g.latest, plain + eff)
    && g.attacks == Attacks(plain, eff, flagged)
  }

  // ---------------------------------------------------------------- the reconciliation

  /** The rows the loop adds one for: counted, and not taken as already counted under the same contract. */
  function Added(rows: set<Stored>, flagged: Flagged, f: Filter, anomalyOnly: bool, c: string): set<Stored> {
    set r | r in EffectiveMembers(rows, flagged, f, anomalyOnly, c)
            && !(TakenAsCounted(r, f, anomalyOnly) && r.contract == c)
  }

  function Base(stored: set<Stored>, f: Filter, anomalyOnly: bool, c: string): set<Stored> {
    if anomalyOnly then {} else SqlMembers(stored, f, c)
  }

  /** The groups after the rows `done` were folded in. */
  ghost predicate Folded(stored: set<Stored>, flagged: Flagged, f: Filter, anomalyOnly: bool, done: set<Stored>,
                         groups: Groups)
  {
    && "" !in groups
    && forall c :: c != "" ==> FoldedAt(stored, flagged, f, anomalyOnly, done, groups, c)
  }

  ghost predicate FoldedAt(stored: set<Stored>, flagged: Flagged, f: Filter, anomalyOnly: bool, done: set<Stored>,
                           groups: Groups, c: string)
  {
    Tallied(groups, c, Base(stored, f, anomalyOnly, c), EffectiveMembers(done, flagged, f, anomalyOnly, c),
            Added(done, flagged, f, anomalyOnly, c), flagged)
  }

  /** The contract's group counts `base` and `added`, exists when it has members, and shows them. */
  ghost predicate Tallied(groups: Groups, c: string, base: set<Stored>, eff: set<Stored>, added: set<Stored>,
                          flagged: Flagged)
  {
    && CountOf(groups, c) == |base| + |added|
    && (c in groups <==> base + eff != {})
    && (c in groups ==> Shows(groups[c], base, eff, flagged))
  }

  /** One row folded into its effective group. */
  function FoldRow(groups: Groups, r: Stored, flagged: Flagged, f: Filter, anomalyOnly: bool): Groups {
    if !Counted(r, flagged, f, anomalyOnly) then groups
    else
      var c := EffectiveOf(r, flagged).contract;
      groups[c := Raised(groups, c, r, flagged, !(TakenAsCounted(r, f, anomalyOnly) && r.contract == c))]
  }

  /** A contract's group, created if need be, brought up to the row's merged face and time and, if asked, counting one
      more alert. */
  function Raised(groups: Groups, c: string, r: Stored, flagged: Flagged, oneMore: bool): Group {
    var face := EffectiveFace(r, flagged);
    var g := if c in groups then groups[c] else Group(0, Face(0.0, face.band, face.attack, false), {}, r.analyzedAt);
    Group(if oneMore then g.count + 1 else g.count, if face.score > g.worst.score then face else g.worst,
          g.attacks + {face.attack}, if r.analyzedAt > g.latest then r.analyzedAt else g.latest)
  }

  lemma RaisedTallies(groups: Groups, c: string, base: set<Stored>, eff: set<Stored>, added: set<Stored>,
                      flagged: Flagged, r: Stored, oneMore: bool)
    requires Tallied(groups, c, base, eff, added, flagged) && r !in eff && r !in added
    requires EffectiveOf(r, flagged).score >= 0.0 && r.score >= 0.0
    ensures Tallied(groups[c := Raised(groups, c, r, flagged, oneMore)], c, base, eff + {r},
                    if oneMore then added + {r} else added, flagged)
  {
    hide EffectiveFace, EffectiveOf, Shows;
    if c in groups {
      ShowsJoins(groups, c, base, eff, flagged, r, oneMore);
    } else {
      assert base == {} && eff == {};
      ShowsAlone(groups, c, flagged, r, oneMore);
      assert eff + {r} == {r};
    }
    assert r in base + (eff + {r});
  }

  lemma ShowsJoins(groups: Groups, c: string, base: set<Stored>, eff: set<Stored>, flagged: Flagged, r: Stored,
                   oneMore: bool)
    requires c in groups && Shows(groups[c], base, eff, flagged)
    ensures Shows(Raised(groups, c, r, flagged, oneMore), base, eff + {r}, flagged)
  {
    hide EffectiveFace, IsWorst, IsLatest, Attacks;
    AttacksJoin(base, eff, flagged, r);
    WorstJoins(groups[c].worst, base, eff, flagged, r);
    LatestJoins(groups[c].latest, base + eff, r);
    assert base + (eff + {r}) == base + eff + {r};
  }

  lemma ShowsAlone(groups: Groups, c: string, flagged: Flagged, r: Stored, oneMore: bool)
    requires c !in groups && EffectiveOf(r, flagged).score >= 0.0 && r.score >= 0.0
    ensures Shows(Raised(groups, c, r, flagged, oneMore), {}, {r}, flagged)
  {
    AttacksJoin({}, {}, flagged, r);
    NoAttacks(flagged);
    WorstAlone(flagged, r);
    LatestAlone(r);
    hide EffectiveFace, IsWorst, IsLatest, Attacks, EffectiveOf;
    assert {} + {r} == {r};
  }

  lemma AttacksJoin(plain: set<Stored>, eff: set<Stored>, flagged: Flagged, r: Stored)
    ensures Attacks(plain, eff + {r}, flagged) == Attacks(plain, eff, flagged) + {EffectiveFace(r, flagged).attack}
  {
    hide EffectiveFace;
    assert (set x | x in eff + {r} :: EffectiveFace(x, flagged).attack)
        == (set x | x in eff :: EffectiveFace(x, flagged).attack) + {EffectiveFace(r, flagged).attack};
  }

  lemma NoAttacks(flagged: Flagged)
    ensures Attacks({}, {}, flagged) == {}
  {}

  lemma LatestJoins(latest: int, rows: set<Stored>, r: Stored)
    requires IsLatest(latest, rows)
    ensures IsLatest(if r.analyzedAt > latest then r.analyzedAt else latest, rows + {r})
  {
    var x :| x in rows && x.analyzedAt == latest;
    assert x in rows + {r} && r in rows + {r};
  }

  lemma LatestAlone(r: Stored)
    ensures IsLatest(r.analyzedAt, {r})
  {
    assert r in {r};
  }

  lemma FoldRowKeeps(stored: set<Stored>, flagged: Flagged, f: Filter, anomalyOnly: bool, done: set<Stored>,
                     groups: Groups, r: Stored)
    requires Folded(stored, flagged, f, anomalyOnly, done, groups) && r !in done
    requires EffectiveOf(r, flagged).score >= 0.0 && r.score >= 0.0
    ensures Folded(stored, flagged, f, anomalyOnly, done + {r}, FoldRow(groups, r, flagged, f, anomalyOnly))
  {
    var after := FoldRow(groups, r, flagged, f, anomalyOnly);
    forall c | c != "" ensures FoldedAt(stored, flagged, f, anomalyOnly, done + {r}, after, c) {
      assert FoldedAt(stored, flagged, f, anomalyOnly, done, groups, c);
      FoldRowAt(stored, flagged, f, anomalyOnly, done, groups, r, c);
    }
  }

  lemma MembersGrow(flagged: Flagged, f: Filter, anomalyOnly: bool, done: set<Stored>, r: Stored, c: string)
    ensures EffectiveMembers(done + {r}, flagged, f, anomalyOnly, c)
         == EffectiveMembers(done, flagged, f, anomalyOnly, c)
            + if Counted(r, flagged, f, anomalyOnly) && EffectiveOf(r, flagged).contract == c then {r} else {}
    ensures Added(done + {r}, flagged, f, anomalyOnly, c)
         == Added(done, flagged, f, anomalyOnly, c)
            + if Counted(r, flagged, f, anomalyOnly) && EffectiveOf(r, flagged).contract == c
                 && !(TakenAsCounted(r, f, anomalyOnly) && r.contract == c) then {r} else {}
  {}

  lemma FoldRowAt(stored: set<Stored>, flagged: Flagged, f: Filter, anomalyOnly: bool, done: set<Stored>,
                  groups: Groups, r: Stored, c: string)
    requires c != "" && FoldedAt(stored, flagged, f, anomalyOnly, done, groups, c) && r !in done
    requires EffectiveOf(r, flagged).score >= 0.0 && r.score >= 0.0
    ensures FoldedAt(stored, flagged, f, anomalyOnly, done + {r}, FoldRow(groups, r, flagged, f, anomalyOnly), c)
  {
    MembersGrow(flagged, f, anomalyOnly, done, r, c);
    NotYet(flagged, f, anomalyOnly, done, r, c);
    hide EffectiveMembers, Added, Base, TakenAsCounted, EffectiveOf, Shows;
    var eff, added := EffectiveMembers(done, flagged, f, anomalyOnly, c), Added(done, flagged, f, anomalyOnly, c);
    if Counted(r, flagged, f, anomalyOnly) && EffectiveOf(r, flagged).contract == c {
      hide Counted, Tallied;
      var oneMore := !(TakenAsCounted(r, f, anomalyOnly) && r.contract == c);
      RaisedTallies(groups, c, Base(stored, f, anomalyOnly, c), eff, added, flagged, r, oneMore);
      assert !oneMore ==> added + {} == added;
    } else {
      assert eff + {} == eff && added + {} == added;
    }
  }

  /** A new group starts from a zero score with the row's own band and class. */
  lemma WorstAlone(flagged: Flagged, r: Stored)
    requires EffectiveOf(r, flagged).score >= 0.0 && r.score >= 0.0
    ensures var face := EffectiveFace(r, flagged);
            IsWorst(if face.score > 0.0 then face else Face(0.0, face.band, face.attack, false), {}, {r}, flagged)
  {
    assert r in {r};
  }

  lemma NotYet(flagged: Flagged, f: Filter, anomalyOnly: bool, done: set<Stored>, r: Stored, c: string)
    requires r !in done
    ensures r !in EffectiveMembers(done, flagged, f, anomalyOnly, c) && r !in Added(done, flagged, f, anomalyOnly, c)
  {}

  lemma WorstJoins(worst: Face, plain: set<Stored>, eff: set<Stored>, flagged: Flagged, r: Stored)
    requires IsWorst(worst, plain, eff, flagged)
    ensures var face := EffectiveFace(r, flagged);
            IsWorst(if face.score > worst.score then face else worst, plain, eff + {r}, flagged)
  {
    hide EffectiveFace;
    var face := EffectiveFace(r, flagged);
    if face.score > worst.score {
      assert r in eff + {r} && EffectiveFace(r, flagged) == face;
    } else if x :| x in eff && EffectiveFace(x, flagged) == worst {
      assert x in eff + {r};
    }
  }

  /** `_augment_groups_with_contract_anomaly`: `rows` lists the flagged transactions' stored rows. */
  method Augment(stored: set<Stored>, rows: seq<Stored>, flagged: Flagged, f: Filter, sqlGroups: Groups,
                 anomalyOnly: bool)
    returns (groups: Groups, rehomed: set<string>)
    requires DistinctHashes(stored) && (forall r :: r in stored ==> r.score >= 0.0)
    requires (forall i, j :: 0 <= i < j < |rows| ==> rows[i] != rows[j])
               && (set r | r in rows) == FlaggedRows(stored, flagged)
    requires if anomalyOnly then sqlGroups == map[] else IsSqlGrouping(stored, f, sqlGroups)
    ensures Folded(stored, flagged, f, anomalyOnly, FlaggedRows(stored, flagged), groups)
    ensures rehomed == set r | r in FlaggedRows(stored, flagged) && r.contract == ""
                            && Counted(r, flagged, f, anomalyOnly) :: r.hash
  {
    groups, rehomed := sqlGroups, {};
    NothingFolded(stored, flagged, f, sqlGroups, anomalyOnly);
    ghost var done: set<Stored> := {};
    for i := 0 to |rows|
      invariant done == set r | r in rows[..i]
      invariant Folded(stored, flagged, f, anomalyOnly, done, groups)
      invariant rehomed == set r | r in done && r.contract == "" && Counted(r, flagged, f, anomalyOnly) :: r.hash
    {
      var r := rows[i];
      assert r in (set x | x in rows);
      assert r in FlaggedRows(stored, flagged);
      FoldRowKeeps(stored, flagged, f, anomalyOnly, done, groups, r);
      if Counted(r, flagged, f, anomalyOnly) {
        if r.contract == "" { rehomed := rehomed + {r.hash}; }
        groups := FoldRow(groups, r, flagged, f, anomalyOnly);
      }
      assert rows[..i + 1] == rows[..i] + [r];
      done := done + {r};
    }
    assert rows[..|rows|] == rows;
  }

  lemma ShowsStored(g: Group, plain: set<Stored>, flagged: Flagged)
    requires Shows(g, plain, {}, map[])
    ensures Shows(g, plain, {}, flagged)
  {
    assert Attacks(plain, {}, flagged) == Attacks(plain, {}, map[]);
  }

  lemma NothingFolded(stored: set<Stored>, flagged: Flagged, f: Filter, groups: Groups, anomalyOnly: bool)
    requires if anomalyOnly then groups == map[] else IsSqlGrouping(stored, f, groups)
    ensures Folded(stored, flagged, f, anomalyOnly, {}, groups)
  {
    hide Shows;
    forall c | c != "" ensures FoldedAt(stored, flagged, f, anomalyOnly, {}, groups, c) {
      assert EffectiveMembers({}, flagged, f, anomalyOnly, c) == {} && Added({}, flagged, f, anomalyOnly, c) == {};
      if !anomalyOnly && c in groups { ShowsStored(groups[c], SqlMembers(stored, f, c), flagged); }
    }
  }

  // ---------------------------------------------------------------- reconciliation equals recomputation

  function VerdictsOf(r: Stored, flagged: Flagged): seq<Verdict> {
    if r.hash in flagged then flagged[r.hash] else []
  }

  /** A contract's members: outside the class filter, the rows that pass as the database filters and name the contract;
      and the flagged ones whose shown alert passes and names it, under the class filter only where a verdict outscores
      the row. */
  lemma MembersMean(stored: set<Stored>, flagged: Flagged, f: Filter, anomalyOnly: bool, c: string, r: Stored)
    requires c != ""
    ensures r in Members(stored, flagged, f, anomalyOnly, c) <==>
              && r in stored
              && (|| (!anomalyOnly && SqlPasses(f, r) && r.contract == c)
                  || (r.hash in flagged
                      && exists e :: IsShown(r, flagged[r.hash], e) && e.contract == c
                                     && Passes(f, e.score, e.band, r.analyzedAt, r.corroboration)
                                     && (anomalyOnly ==> exists v :: v in flagged[r.hash] && v.score > r.score)))
  {
    hide Merged, IsShown, Passes, SqlPasses;
    var vs := VerdictsOf(r, flagged);
    MergedIsShown(r, vs);
    MergedOutscores(r, vs);
    forall e | IsShown(r, vs, e) ensures e == Merged(r, vs) { ShownOnce(r, vs, e, Merged(r, vs)); }
  }

  lemma MergedOutscores(r: Stored, vs: seq<Verdict>)
    ensures Merged(r, vs).anomaly <==> exists v :: v in vs && v.score > r.score
  {
    MergedIsShown(r, vs);
    hide Merged, Resolve;
  }

  lemma ShownOnce(r: Stored, vs: seq<Verdict>, a: Effective, b: Effective)
    requires IsShown(r, vs, a) && IsShown(r, vs, b)
    ensures a == b
  {
    if !(forall i :: 0 <= i < |vs| ==> vs[i].score <= r.score) {
      forall v, w | IsHighest(vs, v) && IsHighest(vs, w) ensures v == w { HighestOnce(vs, v, w); }
    }
  }

  lemma HighestOnce(vs: seq<Verdict>, v: Verdict, w: Verdict)
    requires IsHighest(vs, v) && IsHighest(vs, w)
    ensures v == w
  {
    var i :| 0 <= i < |vs| && HighestAt(vs, i, v);
    var k :| 0 <= k < |vs| && HighestAt(vs, k, w);
    assert i == k;
  }

  /** After the reconciliation a contract's count is the number of its members less the ones missed, and it has a
      group exactly when it has members. */
  lemma CountIsMembersLessMissed(stored: set<Stored>, flagged: Flagged, f: Filter, anomalyOnly: bool, groups: Groups,
                                 c: string)
    requires Folded(stored, flagged, f, anomalyOnly, FlaggedRows(stored, flagged), groups) && c != ""
    ensures CountOf(groups, c)
              == |Members(stored, flagged, f, anomalyOnly, c)| - |Missed(stored, flagged, f, anomalyOnly, c)|
    ensures c in groups <==> Members(stored, flagged, f, anomalyOnly, c) != {}
  {
    var rows := FlaggedRows(stored, flagged);
    assert FoldedAt(stored, flagged, f, anomalyOnly, rows, groups, c);
    MembersSplit(stored, flagged, f, anomalyOnly, c);
  }

  /** A contract's members are those the database counts, those the loop adds, and those missed, without overlap. */
  lemma MembersSplit(stored: set<Stored>, flagged: Flagged, f: Filter, anomalyOnly: bool, c: string)
    requires c != ""
    ensures var base := Base(stored, f, anomalyOnly, c);
            var added := Added(FlaggedRows(stored, flagged), flagged, f, anomalyOnly, c);
            var missed := Missed(stored, flagged, f, anomalyOnly, c);
            && Members(stored, flagged, f, anomalyOnly, c) == base + added + missed
            && |base + added + missed| == |base| + |added| + |missed|
  {
    var base, missed := Base(stored, f, anomalyOnly, c), Missed(stored, flagged, f, anomalyOnly, c);
    var added := Added(FlaggedRows(stored, flagged), flagged, f, anomalyOnly, c);
    assert base !! added by {
      forall r | r in added ensures r !in base { FiltersDiffer(f, r); }
    }
    assert (base + added) !! missed;
    assert |base + added| == |base| + |added|;
  }

  /** A flagged row that names the contract as stored and as merged, and is counted, while its legacy label hides it
      from a band filter that asks for Informational. */
  predicate HiddenByLabel(r: Stored, flagged: Flagged, f: Filter, anomalyOnly: bool, c: string) {
    && r.contract == c && r.band.LegacyLow? && Informational in f.bands && !anomalyOnly && StoredPasses(f, r)
    && Counted(r, flagged, f, anomalyOnly) && EffectiveOf(r, flagged).contract == c
  }

  /** So the count is the number of members exactly when no row is hidden that way. */
  lemma CountExact(stored: set<Stored>, flagged: Flagged, f: Filter, anomalyOnly: bool, groups: Groups, c: string)
    requires Folded(stored, flagged, f, anomalyOnly, FlaggedRows(stored, flagged), groups) && c != ""
    ensures CountOf(groups, c) == |Members(stored, flagged, f, anomalyOnly, c)|
            <==> forall r :: r in FlaggedRows(stored, flagged) ==> !HiddenByLabel(r, flagged, f, anomalyOnly, c)
  {
    CountIsMembersLessMissed(stored, flagged, f, anomalyOnly, groups, c);
    var missed := Missed(stored, flagged, f, anomalyOnly, c);
    forall r | r in FlaggedRows(stored, flagged) ensures HiddenByLabel(r, flagged, f, anomalyOnly, c) ==> r in missed {
      FiltersDiffer(f, r);
    }
    forall r | r in missed
      ensures r in FlaggedRows(stored, flagged) && HiddenByLabel(r, flagged, f, anomalyOnly, c)
    {
      FiltersDiffer(f, r);
    }
    assert |missed| == 0 <==> missed == {};
    if |missed| != 0 { var r :| r in missed; }
  }

  const LABELLED := Stored("tx", "script", 10.0, LegacyLow, "phishing", 0, 0)

  const RAISED: Flagged := map["tx" := [Verdict(20.0, "script", false)]]

  const INFORMATIONAL_ONLY := Filter(0.0, {Informational}, None, None, 0)

  /** One flagged row with the legacy label, its verdict naming the contract its stored row names, leaves that
      contract showing no alert at all under a filter for Informational. */
  lemma LegacyLabelUndercounts(groups: Groups)
    requires Folded({LABELLED}, RAISED, INFORMATIONAL_ONLY, false, FlaggedRows({LABELLED}, RAISED), groups)
    ensures Members({LABELLED}, RAISED, INFORMATIONAL_ONLY, false, "script") == {LABELLED}
    ensures CountOf(groups, "script") == 0
  {
    var verdicts := [Verdict(20.0, "script", false)];
    assert Resolve(verdicts) == Some(verdicts[0]) by { assert verdicts[..0] == []; }
    assert Counted(LABELLED, RAISED, INFORMATIONAL_ONLY, false) && EffectiveOf(LABELLED, RAISED).contract == "script";
    assert Missed({LABELLED}, RAISED, INFORMATIONAL_ONLY, false, "script") == {LABELLED};
    assert Members({LABELLED}, RAISED, INFORMATIONAL_ONLY, false, "script") == {LABELLED};
    CountIsMembersLessMissed({LABELLED}, RAISED, INFORMATIONAL_ONLY, false, groups, "script");
  }

  /** The rows of the un-attributed list. */
  function Unattributed(stored: set<Stored>, f: Filter, rehomed: set<string>): set<Stored> {
    set r | r in stored && r.contract == "" && SqlPasses(f, r) && r.hash !in rehomed
  }

  /** No alert is both a member of a group and a lone row, and every alert the flat list would show is one of the
      two. */
  lemma ListedOnce(stored: set<Stored>, flagged: Flagged, f: Filter, rehomed: set<string>, r: Stored)
    requires DistinctHashes(stored) && r in stored
    requires rehomed == set x | x in FlaggedRows(stored, flagged) && x.contract == ""
                             && Counted(x, flagged, f, false) :: x.hash
    ensures r in Unattributed(stored, f, rehomed) ==>
              forall c :: c != "" ==> r !in Members(stored, flagged, f, false, c)
    ensures SqlPasses(f, r) ==>
              r in Unattributed(stored, f, rehomed) || exists c :: c != "" && r in Members(stored, flagged, f, false, c)
  {
    if SqlPasses(f, r) && r !in Unattributed(stored, f, rehomed) {
      if r.contract != "" {
        assert r in Members(stored, flagged, f, false, r.contract);
      } else {
        var x :| x in FlaggedRows(stored, flagged) && x.contract == "" && Counted(x, flagged, f, false)
            && x.hash == r.hash;
        assert x == r;
        assert r in Members(stored, flagged, f, false, EffectiveOf(r, flagged).contract);
      }
    }
    if r.contract == "" && r in FlaggedRows(stored, flagged) && Counted(r, flagged, f, false) {
      assert r.hash in rehomed;
    }
  }
}
