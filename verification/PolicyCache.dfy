/** The policy first-seen cache: positive results only, no expiry, batched misses read outside the lock
    (`get_policies_first_seen`). */
module PolicyCache {
  import opened Collections

  type Policy = string

  /** Each known policy's earliest slot. */
  type FirstSeen = map<Policy, int>

  /** The policies of a call that the cache knows, with their slots. */
  function Known(cache: FirstSeen, ids: seq<Policy>): FirstSeen {
    map p | p in ids && p in cache :: cache[p]
  }

  /** Those it does not, in order. */
  function Missing(cache: FirstSeen, ids: seq<Policy>): seq<Policy> {
    if ids == [] then []
    else Missing(cache, ids[..|ids| - 1]) + if ids[|ids| - 1] in cache then [] else [ids[|ids| - 1]]
  }

  function Remembered(cache: FirstSeen, found: FirstSeen, max: nat): FirstSeen {
    if max == 0 || found == map[] then cache
    else (if |cache| >= max then map[] else cache) + found
  }

  class FirstSeenCache {
    var slots: FirstSeen
    const max: nat

    constructor (max: nat)
      ensures slots == map[] && this.max == max
    {
      slots, this.max := map[], max;
    }

    method Ask(ids: seq<Policy>) returns (result: FirstSeen, misses: seq<Policy>)
      ensures max > 0 ==> result == Known(slots, ids) && misses == Missing(slots, ids)
      ensures max == 0 ==> result == map[] && misses == ids
    {
      result, misses := map[], ids;
      if max > 0 {
        misses := [];
        for i := 0 to |ids|
          invariant result == Known(slots, ids[..i]) && misses == Missing(slots, ids[..i])
        {
          assert ids[..i + 1][..i] == ids[..i] && ids[..i + 1] == ids[..i] + [ids[i]];
          var p := ids[i];
          if p in slots { result := result[p := slots[p]]; } else { misses := misses + [p]; }
        }
        assert ids[..|ids|] == ids;
      }
    }

    method Remember(found: FirstSeen)
      modifies this
      ensures slots == Remembered(old(slots), found, max)
    {
      if max > 0 && found != map[] {
        if |slots| >= max { slots := map[]; }
        slots := slots + found;
      }
    }
  }

  // ---------------------------------------------------------------- threads and the table

  /** A call between its critical sections; `before` is the table when it began. */
  datatype Phase =
    | Querying(ids: seq<Policy>, before: FirstSeen, hits: FirstSeen, misses: seq<Policy>)
    | Filling(ids: seq<Policy>, before: FirstSeen, hits: FirstSeen, found: FirstSeen)

  /** An answered call, with the table when it began and when it answered. */
  datatype Reply = Reply(ids: seq<Policy>, before: FirstSeen, answer: FirstSeen, table: FirstSeen)

  datatype World = World(table: FirstSeen, cache: FirstSeen, threads: map<nat, Phase>, replies: seq<Reply>)

  datatype Move =
    | Ask(thread: nat, ids: seq<Policy>)
    | Query(thread: nat)
    | Fill(thread: nat)
    | Sight(policy: Policy, slot: int)
    | Forget

  /** The table keeps the minimum of all sightings. */
  function Sighted(table: FirstSeen, p: Policy, slot: int): FirstSeen {
    if p in table && table[p] <= slot then table else table[p := slot]
  }

  function Found(table: FirstSeen, misses: seq<Policy>): FirstSeen {
    map p | p in misses && p in table :: table[p]
  }

  /** `Forget` is a restart of the process; a move that is not possible changes nothing. */
  function Next(w: World, m: Move, max: nat): World {
    match m
    case Ask(t, ids) =>
      if t in w.threads then w
      else
        var hits := if max > 0 then Known(w.cache, ids) else map[];
        var misses := if max > 0 then Missing(w.cache, ids) else ids;
        if misses == [] then w.(replies := w.replies + [Reply(ids, w.table, hits, w.table)])
        else w.(threads := w.threads[t := Querying(ids, w.table, hits, misses)])
    case Query(t) =>
      if t !in w.threads || !w.threads[t].Querying? then w
      else
        var p := w.threads[t];
        w.(threads := w.threads[t := Filling(p.ids, p.before, p.hits, Found(w.table, p.misses))])
    case Fill(t) =>
      if t !in w.threads || !w.threads[t].Filling? then w
      else
        var p := w.threads[t];
        w.(cache := Remembered(w.cache, p.found, max), threads := w.threads - {t},
           replies := w.replies + [Reply(p.ids, p.before, p.hits + p.found, w.table)])
    case Sight(p, slot) => w.(table := Sighted(w.table, p, slot))
    case Forget => w.(cache := map[], threads := map[])
  }

  function Run(w: World, ms: seq<Move>, max: nat): World {
    if ms == [] then w else Next(Run(w, ms[..|ms| - 1], max), ms[|ms| - 1], max)
  }

  // ---------------------------------------------------------------- never too early, never forgotten

  /** Every slot named is one the table knows the policy by, or a later one. */
  ghost predicate NoEarlier(m: FirstSeen, table: FirstSeen) {
    forall p :: p in m ==> p in table && m[p] >= table[p]
  }

  /** The table only gains policies and lowers slots. */
  ghost predicate Descends(older: FirstSeen, newer: FirstSeen) {
    forall p :: p in older ==> p in newer && newer[p] <= older[p]
  }

  ghost predicate GoodPhase(p: Phase, table: FirstSeen) {
    && Descends(p.before, table) && NoEarlier(p.hits, table) && (forall x :: x in p.hits ==> x in p.ids)
    && match p
       case Querying(ids, before, hits, misses) =>
         (forall x :: x in misses ==> x in ids) && forall x :: x in ids ==> x in hits || x in misses
       case Filling(ids, before, hits, found) =>
         && NoEarlier(found, table) && (forall x :: x in found ==> x in ids)
         && forall x :: x in ids && x in before ==> x in hits || x in found
  }

  /** An answer names only policies asked for, none earlier than the table's minimum at that moment, and every one of
      them that was known before the call. */
  ghost predicate GoodReply(r: Reply) {
    && NoEarlier(r.answer, r.table) && (forall p :: p in r.answer ==> p in r.ids)
    && forall p :: p in r.ids && p in r.before ==> p in r.answer
  }

  ghost predicate Sound(w: World) {
    && NoEarlier(w.cache, w.table)
    && (forall t :: t in w.threads ==> GoodPhase(w.threads[t], w.table))
    && (forall i :: 0 <= i < |w.replies| ==> GoodReply(w.replies[i]))
  }

  lemma {:induction false} MissingSplits(cache: FirstSeen, ids: seq<Policy>)
    ensures forall p :: p in Missing(cache, ids) <==> p in ids && p !in cache
  {
    if ids != [] {
      MissingSplits(cache, ids[..|ids| - 1]);
      assert ids == ids[..|ids| - 1] + [ids[|ids| - 1]];
    }
  }

  lemma AskedPhase(cache: FirstSeen, table: FirstSeen, ids: seq<Policy>, max: nat)
    requires NoEarlier(cache, table)
    ensures var hits := if max > 0 then Known(cache, ids) else map[];
            var misses := if max > 0 then Missing(cache, ids) else ids;
            && GoodPhase(Querying(ids, table, hits, misses), table)
            && (misses == [] ==> GoodReply(Reply(ids, table, hits, table)))
  {
    MissingSplits(cache, ids);
  }

  lemma AskIsSound(w: World, t: nat, ids: seq<Policy>, max: nat)
    requires Sound(w)
    ensures Sound(Next(w, Ask(t, ids), max))
  {
    hide GoodPhase, GoodReply, NoEarlier, Known, Missing;
    AskedPhase(w.cache, w.table, ids, max);
  }

  lemma QueryIsSound(w: World, t: nat, max: nat)
    requires Sound(w)
    ensures Sound(Next(w, Query(t), max))
  {
    if t in w.threads { assert GoodPhase(w.threads[t], w.table); }
  }

  lemma RememberKeeps(cache: FirstSeen, found: FirstSeen, table: FirstSeen, max: nat)
    requires NoEarlier(cache, table) && NoEarlier(found, table)
    ensures NoEarlier(Remembered(cache, found, max), table)
  {}

  /** What was found is remembered; with room left nothing else is forgotten, and a cache within its limit exceeds it by
      less than what one call adds. */
  lemma RememberedExactly(cache: FirstSeen, found: FirstSeen, max: nat)
    requires max > 0
    ensures var after := Remembered(cache, found, max);
            && (forall p :: p in found ==> p in after && after[p] == found[p])
            && (forall p :: p in after && p !in found ==> p in cache && after[p] == cache[p])
            && (|cache| < max ==> forall p :: p in cache ==> p in after)
            && (found != map[] ==> |after| < max + |found|)
  {
    JoinedSize(cache, found);
    JoinedSize(map[], found);
  }

  lemma JoinedSize(kept: FirstSeen, found: FirstSeen)
    ensures |kept + found| <= |kept| + |found|
  {
    var more := found.Keys - kept.Keys;
    SmallerSet(more, found.Keys);
    assert (kept + found).Keys == kept.Keys + more;
    assert |kept.Keys + more| == |kept.Keys| + |more|;
  }

  lemma FilledReply(p: Phase, table: FirstSeen)
    requires p.Filling? && GoodPhase(p, table)
    ensures GoodReply(Reply(p.ids, p.before, p.hits + p.found, table))
  {}

  lemma FillIsSound(w: World, t: nat, max: nat)
    requires Sound(w)
    ensures Sound(Next(w, Fill(t), max))
  {
    hide Remembered, GoodReply, NoEarlier;
    if t in w.threads && w.threads[t].Filling? {
      var p := w.threads[t];
      assert GoodPhase(p, w.table);
      RememberKeeps(w.cache, p.found, w.table, max);
      FilledReply(p, w.table);
    }
  }

  lemma SightIsSound(w: World, p: Policy, slot: int, max: nat)
    requires Sound(w)
    ensures Sound(Next(w, Sight(p, slot), max))
  {
    var n := Next(w, Sight(p, slot), max);
    assert Descends(w.table, n.table);
    forall t | t in n.threads ensures GoodPhase(n.threads[t], n.table) { assert GoodPhase(w.threads[t], w.table); }
  }

  lemma {:induction false} RunsAreSound(w: World, ms: seq<Move>, max: nat)
    requires Sound(w)
    ensures Sound(Run(w, ms, max))
  {
    hide Sound, Next;
    if ms != [] {
      var b := Run(w, ms[..|ms| - 1], max);
      RunsAreSound(w, ms[..|ms| - 1], max);
      match ms[|ms| - 1]
      case Ask(t, ids) => AskIsSound(b, t, ids, max);
      case Query(t) => QueryIsSound(b, t, max);
      case Fill(t) => FillIsSound(b, t, max);
      case Sight(p, slot) => SightIsSound(b, p, slot, max);
      case Forget => ForgetIsSound(b, max);
    }
  }

  lemma ForgetIsSound(w: World, max: nat)
    requires Sound(w)
    ensures Sound(Next(w, Forget, max))
  {}

  /** The slot was the policy's in the first table, or the policy was sighted there. */
  ghost predicate Sourced(first: FirstSeen, ms: seq<Move>, p: Policy, slot: int) {
    (p in first && first[p] == slot) || Sight(p, slot) in ms
  }

  ghost predicate AllSourced(first: FirstSeen, ms: seq<Move>, m: FirstSeen) {
    forall p :: p in m ==> Sourced(first, ms, p, m[p])
  }

  ghost predicate SourcedPhase(first: FirstSeen, ms: seq<Move>, p: Phase) {
    AllSourced(first, ms, p.hits) && (p.Filling? ==> AllSourced(first, ms, p.found))
  }

  ghost predicate SourcedWorld(first: FirstSeen, ms: seq<Move>, w: World) {
    && AllSourced(first, ms, w.table) && AllSourced(first, ms, w.cache)
    && (forall t :: t in w.threads ==> SourcedPhase(first, ms, w.threads[t]))
    && (forall i :: 0 <= i < |w.replies| ==> AllSourced(first, ms, w.replies[i].answer))
  }

  lemma SourcedLonger(first: FirstSeen, ms: seq<Move>, m: Move, w: World)
    requires SourcedWorld(first, ms, w)
    ensures SourcedWorld(first, ms + [m], w)
  {
    forall p, slot | Sourced(first, ms, p, slot) ensures Sourced(first, ms + [m], p, slot) {}
    forall x | AllSourced(first, ms, x) ensures AllSourced(first, ms + [m], x) {
      forall p | p in x ensures Sourced(first, ms + [m], p, x[p]) { assert Sourced(first, ms, p, x[p]); }
    }
    forall t | t in w.threads ensures SourcedPhase(first, ms + [m], w.threads[t]) {
      assert SourcedPhase(first, ms, w.threads[t]);
    }
  }

  lemma SourcedNext(first: FirstSeen, ms: seq<Move>, m: Move, w: World, max: nat)
    requires SourcedWorld(first, ms, w) && m in ms
    ensures SourcedWorld(first, ms, Next(w, m, max))
  {
    hide AllSourced, Known, Missing, Found, Remembered, Sighted;
    match m
    case Ask(t, ids) =>
      PartSourced(first, ms, w.cache, ids);
    case Query(t) =>
      if t in w.threads && w.threads[t].Querying? {
        assert SourcedPhase(first, ms, w.threads[t]);
        PartSourced(first, ms, w.table, w.threads[t].misses);
      }
    case Fill(t) =>
      if t in w.threads && w.threads[t].Filling? {
        assert SourcedPhase(first, ms, w.threads[t]);
        JoinSourced(first, ms, w.cache, w.threads[t].hits, w.threads[t].found, max);
      }
    case Sight(p, slot) => SightSourced(first, ms, w.table, p, slot);
    case Forget => NoneSourced(first, ms);
  }

  lemma NoneSourced(first: FirstSeen, ms: seq<Move>)
    ensures AllSourced(first, ms, map[])
  {}

  lemma PartSourced(first: FirstSeen, ms: seq<Move>, m: FirstSeen, ids: seq<Policy>)
    requires AllSourced(first, ms, m)
    ensures AllSourced(first, ms, Known(m, ids)) && AllSourced(first, ms, Found(m, ids)) && AllSourced(first, ms, map[])
  {
    hide Sourced;
  }

  lemma JoinSourced(first: FirstSeen, ms: seq<Move>, cache: FirstSeen, hits: FirstSeen, found: FirstSeen, max: nat)
    requires AllSourced(first, ms, cache) && AllSourced(first, ms, hits) && AllSourced(first, ms, found)
    ensures AllSourced(first, ms, hits + found) && AllSourced(first, ms, Remembered(cache, found, max))
  {
    hide Sourced;
  }

  lemma SightSourced(first: FirstSeen, ms: seq<Move>, table: FirstSeen, p: Policy, slot: int)
    requires AllSourced(first, ms, table) && Sight(p, slot) in ms
    ensures AllSourced(first, ms, Sighted(table, p, slot))
  {}

  lemma {:induction false} RunsAreSourced(first: FirstSeen, ms: seq<Move>, max: nat)
    ensures SourcedWorld(first, ms, Run(World(first, map[], map[], []), ms, max))
  {
    if ms != [] {
      hide SourcedWorld, Next;
      var p, m := ms[..|ms| - 1], ms[|ms| - 1];
      RunsAreSourced(first, p, max);
      assert ms == p + [m];
      var b := Run(World(first, map[], map[], []), p, max);
      SourcedLonger(first, p, m, b);
      SourcedNext(first, ms, m, b, max);
    }
  }

  /** Every slot answered is one the table started with or a sighting of that policy. */
  lemma AnswersAreSightings(first: FirstSeen, ms: seq<Move>, max: nat, i: nat, p: Policy)
    requires i < |Run(World(first, map[], map[], []), ms, max).replies|
    ensures var answer := Run(World(first, map[], map[], []), ms, max).replies[i].answer;
            p in answer ==> (p in first && answer[p] == first[p]) || Sight(p, answer[p]) in ms
  {
    hide Run;
    RunsAreSourced(first, ms, max);
    var r := Run(World(first, map[], map[], []), ms, max).replies[i];
    assert AllSourced(first, ms, r.answer);
    assert p in r.answer ==> Sourced(first, ms, p, r.answer[p]);
  }

  /** However calls interleave with each other and with new sightings, no answer is below the table's current minimum,
      and no policy known before the call is reported absent. */
  lemma AnswersFailTowardDetection(table: FirstSeen, ms: seq<Move>, max: nat, i: nat)
    requires i < |Run(World(table, map[], map[], []), ms, max).replies|
    ensures GoodReply(Run(World(table, map[], map[], []), ms, max).replies[i])
  {
    hide Run, GoodReply;
    RunsAreSound(World(table, map[], map[], []), ms, max);
  }
}
