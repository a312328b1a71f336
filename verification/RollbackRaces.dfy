/** The rollback purge, inserts, the scoring engine and the repurge as steps over one store: which interleavings keep
    every fact row under a transaction, and which keep every stale score due for deletion. */
module RollbackRaces {
  import opened Collections
  import opened RollbackPurge

  /** A purge in progress: the hashes it selected and how many of its DELETEs are done. */
  datatype Purging = Purging(hashes: set<Hash>, done: nat)

  /** `inserting`: the transactions of inserts in flight; `batch`: those the engine has fetched but not scored, and how
      many purges had completed when it fetched them; `purges` and `purgedAt`: purges completed, and the last that took
      each transaction; `unsaved`: the hashes of a completed purge not yet persisted for the repurge; `pending`: those
      persisted. */
  datatype Machine = Machine(
    st: Store, inserting: set<Hash>, purge: Option<Purging>, purges: nat, purgedAt: map<Hash, nat>,
    batch: set<Hash>, batchAt: nat, unsaved: set<Hash>, pending: set<Hash>)

  datatype Move =
    | InsertTxs(slots: map<Hash, Option<int>>)
    | InsertFacts(table: Table, hashes: set<Hash>)
    | EndInsert
    | SelectPast(slot: int)
    | DeleteNext
    | PurgeFails
    | Persist
    | PersistFails
    | Fetch(hashes: set<Hash>)
    | WriteScores
    | DropBatch
    | DeleteScores(hashes: set<Hash>)
    | ClearPending(hashes: set<Hash>)
    | Restart

  /** The handler of one rollback runs to its end before the next begins. */
  predicate HandlerIdle(m: Machine) {
    m.purge.None? && m.unsaved == {}
  }

  /** A move that is not possible changes nothing. */
  function Next(m: Machine, v: Move): (r: Machine)
    requires forall t: Table :: t in m.st.facts
    ensures forall t: Table :: t in r.st.facts
  {
    match v
    case InsertTxs(slots) => m.(st := m.st.(txs := m.st.txs + slots), inserting := m.inserting + slots.Keys)
    case InsertFacts(t, hs) => m.(st := m.st.(facts := m.st.facts[t := m.st.facts[t] + hs * m.inserting]))
    case EndInsert => m.(inserting := {})
    case SelectPast(slot) =>
      if HandlerIdle(m) && Past(m.st.txs, slot) != {} then m.(purge := Some(Purging(Past(m.st.txs, slot), 0))) else m
    case DeleteNext =>
      if m.purge.None? then m
      else
        var p := m.purge.value;
        var st := Delete(m.st, p.done, p.hashes);
        if p.done + 1 < DELETES then m.(st := st, purge := Some(Purging(p.hashes, p.done + 1)))
        else m.(st := st, purge := None, purges := m.purges + 1,
                purgedAt := m.purgedAt + (map h | h in p.hashes :: m.purges + 1), unsaved := p.hashes)
    case PurgeFails => m.(purge := None)
    case Persist => m.(pending := m.pending + m.unsaved, unsaved := {})
    case PersistFails => m.(unsaved := {})
    case Fetch(hs) =>
      if m.batch == {} then m.(batch := hs * (m.st.txs.Keys - m.st.scores.Keys), batchAt := m.purges) else m
    case WriteScores => m.(st := m.st.(scores := m.st.scores + (map h | h in m.batch :: m.batchAt)), batch := {})
    case DropBatch => m.(batch := {})
    case DeleteScores(hs) => m.(st := m.st.(scores := m.st.scores - hs))
    case ClearPending(hs) => m.(pending := m.pending - hs)
    case Restart => m.(inserting := {}, purge := None, batch := {}, unsaved := {})
  }

  ghost predicate Tabled(m: Machine) {
    forall t: Table :: t in m.st.facts
  }

  // ---------------------------------------------------------------- facts under transactions

  ghost predicate NoFacts(st: Store, hs: set<Hash>) {
    forall t: Table :: t in st.facts ==> st.facts[t] * hs == {}
  }

  /** The exact guard: the statement that removes the transactions must find no fact row of theirs left, and a fact
      insert must still have its transactions. */
  ghost predicate FactsGuard(m: Machine, v: Move) {
    match v
    case DeleteNext => m.purge.Some? && m.purge.value.done > |CLEANUP| ==> NoFacts(m.st, m.purge.value.hashes)
    case InsertFacts(t, hs) => hs * m.inserting <= m.st.txs.Keys
    case _ => true
  }

  lemma WithinLess(a: set<Hash>, b: set<Hash>, hs: set<Hash>)
    requires a <= b
    ensures a <= b - hs <==> a * hs == {}
  {
    if a <= b - hs {
      forall h ensures h !in a * hs { if h in a { assert h in b - hs; } }
    } else {
      var h :| h in a && h !in b - hs;
      assert h in a * hs;
    }
  }

  lemma FactsStayExactly(m: Machine, v: Move)
    requires Tabled(m) && FactsHaveTxs(m.st)
    ensures FactsHaveTxs(Next(m, v).st) <==> FactsGuard(m, v)
  {
    var n := Next(m, v);
    match v
    case DeleteNext =>
      if m.purge.Some? {
        var hs, done := m.purge.value.hashes, m.purge.value.done;
        if done > |CLEANUP| {
          forall t: Table ensures n.st.facts[t] <= n.st.txs.Keys <==> m.st.facts[t] * hs == {} {
            assert m.st.facts[t] <= m.st.txs.Keys;
            WithinLess(m.st.facts[t], m.st.txs.Keys, hs);
          }
        } else {
          forall t: Table ensures n.st.facts[t] <= n.st.txs.Keys { assert m.st.facts[t] <= m.st.txs.Keys; }
        }
      }
    case InsertFacts(t, hs) =>
      forall u: Table ensures u != t ==> n.st.facts[u] <= n.st.txs.Keys { assert m.st.facts[u] <= m.st.txs.Keys; }
      assert m.st.facts[t] <= m.st.txs.Keys;
      assert n.st.facts[t] == m.st.facts[t] + hs * m.inserting;
    case InsertTxs(slots) =>
      forall u: Table ensures n.st.facts[u] <= n.st.txs.Keys { assert m.st.facts[u] <= m.st.txs.Keys; }
    case _ =>
  }

  /** Inserts and purges take turns, as one chain-sync session makes them. */
  predicate TakesTurns(m: Machine, v: Move) {
    match v
    case InsertTxs(_) => m.purge.None?
    case SelectPast(_) => m.inserting == {}
    case _ => true
  }

  ghost predicate Ordered(m: Machine) {
    && FactsHaveTxs(m.st) && m.inserting <= m.st.txs.Keys
    && (m.purge.Some? ==>
          && m.inserting == {} && m.purge.value.done < DELETES
          && forall k :: 0 <= k < |CLEANUP| && k < m.purge.value.done ==>
              m.st.facts[CLEANUP[k]] * m.purge.value.hashes == {})
  }

  lemma TurnsKeepOrder(m: Machine, v: Move)
    requires Tabled(m) && Ordered(m) && TakesTurns(m, v)
    ensures Ordered(Next(m, v))
  {
    if v.DeleteNext? && m.purge.Some? && m.purge.value.done > |CLEANUP| {
      forall t: Table ensures m.st.facts[t] * m.purge.value.hashes == {} {
        var k := EveryTableIsCleaned(t);
        assert m.st.facts[CLEANUP[k]] * m.purge.value.hashes == {};
      }
    }
    if v.DeleteNext? && m.purge.Some? {
      assert forall j, k :: 0 <= j < k < |CLEANUP| ==> CLEANUP[j] != CLEANUP[k];
    }
    if v.InsertFacts? { assert v.hashes * m.inserting <= m.inserting; }
    FactsStayExactly(m, v);
  }

  /** An insert in flight during a purge of its transaction, as the address backfill can make it, leaves an orphan. */
  lemma OverlapOrphans(m: Machine, h: Hash, t: Table)
    requires Tabled(m) && m.purge.Some? && m.purge.value.done == DELETES - 1
    requires h in m.inserting && h in m.purge.value.hashes
    ensures !FactsHaveTxs(Next(Next(m, InsertFacts(t, {h})), DeleteNext).st)
  {
    var n := Next(m, InsertFacts(t, {h}));
    assert h in n.st.facts[t] && n.purge == m.purge;
  }

  function Run(m: Machine, vs: seq<Move>): (r: Machine)
    requires forall t: Table :: t in m.st.facts
    ensures forall t: Table :: t in r.st.facts
  {
    if vs == [] then m
    else
      var b := Run(m, vs[..|vs| - 1]);
      Next(b, vs[|vs| - 1])
  }

  /** In every run of turns, with any statement of any purge or insert failing, every fact row has its transaction. */
  lemma {:induction false} TurnsKeepFacts(m: Machine, vs: seq<Move>)
    requires Tabled(m) && Ordered(m)
    requires forall i :: 0 <= i < |vs| ==> TakesTurns(Run(m, vs[..i]), vs[i])
    ensures Ordered(Run(m, vs))
  {
    hide Ordered, Next, TakesTurns;
    if vs != [] {
      var p := vs[..|vs| - 1];
      forall i | 0 <= i < |p| ensures TakesTurns(Run(m, p[..i]), p[i]) { assert p[..i] == vs[..i]; }
      TurnsKeepFacts(m, p);
      assert TakesTurns(Run(m, vs[..|p|]), vs[|p|]);
      TurnsKeepOrder(Run(m, p), vs[|p|]);
    }
  }

  // ---------------------------------------------------------------- stale scores

  /** The transaction was fetched before the last purge that took it. */
  predicate Before(m: Machine, h: Hash, at: nat) {
    h in m.purgedAt && at < m.purgedAt[h]
  }

  predicate StaleScore(m: Machine, h: Hash) {
    h in m.st.scores && Before(m, h, m.st.scores[h])
  }

  predicate StaleBatch(m: Machine, h: Hash) {
    h in m.batch && Before(m, h, m.batchAt)
  }

  /** Every stale score, written or still in flight, is due for deletion. */
  ghost predicate Covered(m: Machine) {
    forall h :: StaleScore(m, h) || StaleBatch(m, h) ==> h in m.pending || h in m.unsaved
  }

  /** Counters are those of completed purges. */
  ghost predicate Counted(m: Machine) {
    && m.batchAt <= m.purges
    && (forall h :: h in m.st.scores ==> m.st.scores[h] <= m.purges)
    && (forall h :: h in m.purgedAt ==> m.purgedAt[h] <= m.purges)
    && (m.purge.Some? ==> m.unsaved == {})
  }

  /** The steps that keep this: persisting may fail only, and pending hashes may be cleared only, when no score row
      older than the purge is left of them, nor a batch that could still write one. */
  ghost predicate CoverGuard(m: Machine, v: Move) {
    match v
    case PersistFails => forall h :: h in m.unsaved && (StaleScore(m, h) || StaleBatch(m, h)) ==> h in m.pending
    case Restart => forall h :: h in m.unsaved && StaleScore(m, h) ==> h in m.pending
    case ClearPending(hs) => forall h :: h in hs && (StaleScore(m, h) || StaleBatch(m, h)) ==> h in m.unsaved
    case _ => true
  }

  lemma StaysCounted(m: Machine, v: Move)
    requires Tabled(m) && Counted(m)
    ensures Counted(Next(m, v))
  {}

  lemma CoverExactly(m: Machine, v: Move)
    requires Tabled(m) && Counted(m) && Covered(m)
    ensures Covered(Next(m, v)) <==> CoverGuard(m, v)
  {
    var n := Next(m, v);
    assert forall h :: StaleScore(m, h) || StaleBatch(m, h) ==> h in m.pending || h in m.unsaved;
  }

  lemma {:induction false} GuardedRunsCover(m: Machine, vs: seq<Move>)
    requires Tabled(m) && Counted(m) && Covered(m)
    requires forall i :: 0 <= i < |vs| ==> CoverGuard(Run(m, vs[..i]), vs[i])
    ensures Counted(Run(m, vs)) && Covered(Run(m, vs))
  {
    hide Counted, Covered, Next, CoverGuard;
    if vs != [] {
      var p := vs[..|vs| - 1];
      forall i | 0 <= i < |p| ensures CoverGuard(Run(m, p[..i]), p[i]) { assert p[..i] == vs[..i]; }
      GuardedRunsCover(m, p);
      assert CoverGuard(Run(m, vs[..|p|]), vs[|p|]);
      CoverExactly(Run(m, p), vs[|p|]);
      StaysCounted(Run(m, p), vs[|p|]);
    }
  }

  ghost predicate NothingStale(m: Machine, hs: set<Hash>) {
    forall h :: h in hs ==> !StaleScore(m, h) && !StaleBatch(m, h)
  }

  /** The move completes no purge of any of the hashes. */
  predicate Spares(m: Machine, v: Move, hs: set<Hash>) {
    v.DeleteNext? && m.purge.Some? && m.purge.value.done + 1 >= DELETES ==> m.purge.value.hashes * hs == {}
  }

  lemma StaysClean(m: Machine, v: Move, hs: set<Hash>)
    requires Tabled(m) && Counted(m) && NothingStale(m, hs) && Spares(m, v, hs)
    ensures NothingStale(Next(m, v), hs)
  {
    var n := Next(m, v);
    forall h | h in hs ensures !StaleScore(n, h) && !StaleBatch(n, h) {
      assert !StaleScore(m, h) && !StaleBatch(m, h);
      if v.DeleteNext? && m.purge.Some? && m.purge.value.done + 1 >= DELETES {
        assert h !in m.purge.value.hashes * hs;
      }
    }
  }

  /** A repurge that deletes the scores once the engine no longer holds the purged transactions leaves nothing stale,
      and its hashes may be cleared at any later time before another purge takes one of them. */
  lemma {:induction false} RepurgeInTime(m: Machine, hs: set<Hash>, vs: seq<Move>)
    requires Tabled(m) && Counted(m) && forall h :: h in hs ==> !StaleBatch(m, h)
    requires forall i :: 0 <= i < |vs| ==> Spares(Run(Next(m, DeleteScores(hs)), vs[..i]), vs[i], hs)
    ensures var n := Run(Next(m, DeleteScores(hs)), vs);
            Counted(n) && NothingStale(n, hs) && CoverGuard(n, ClearPending(hs))
  {
    var first := Next(m, DeleteScores(hs));
    if vs == [] {
      forall h | h in hs ensures !StaleScore(first, h) && !StaleBatch(first, h) { assert !StaleBatch(m, h); }
      StaysCounted(m, DeleteScores(hs));
    } else {
      hide Next, Spares, Counted, Run, StaleScore, StaleBatch;
      var p := vs[..|vs| - 1];
      forall i | 0 <= i < |p| ensures Spares(Run(first, p[..i]), p[i], hs) { assert p[..i] == vs[..i]; }
      RepurgeInTime(m, hs, p);
      assert Spares(Run(first, vs[..|p|]), vs[|p|], hs);
      StaysClean(Run(first, p), vs[|p|], hs);
      StaysCounted(Run(first, p), vs[|p|]);
      RunNext(first, vs);
    }
  }

  lemma RunNext(m: Machine, vs: seq<Move>)
    requires Tabled(m) && vs != []
    ensures Run(m, vs) == Next(Run(m, vs[..|vs| - 1]), vs[|vs| - 1])
  {}

  /** A stale score keeps the transaction out of every fetch, and no repurge is due to delete it. */
  predicate Blocked(m: Machine, h: Hash) {
    h in m.st.txs && StaleScore(m, h) && h !in m.pending && h !in m.unsaved
  }

  /** Nothing in the move frees the transaction: it deletes no score of it, and no purge holds it. */
  ghost predicate LeavesAlone(m: Machine, v: Move, h: Hash) {
    && (v.DeleteScores? ==> h !in v.hashes) && (m.purge.Some? ==> h !in m.purge.value.hashes)
  }

  /** A blocked transaction stays so, and is never fetched, over every run that leaves it alone: it is pending for no
      repurge, and only those delete scores outside a purge. */
  lemma {:induction false} StaysBlocked(m: Machine, vs: seq<Move>, h: Hash)
    requires Tabled(m) && Blocked(m, h) && h !in m.batch
    requires forall i :: 0 <= i < |vs| ==> LeavesAlone(Run(m, vs[..i]), vs[i], h)
    ensures Blocked(Run(m, vs), h) && h !in Run(m, vs).batch
  {
    if vs != [] {
      hide Blocked, Next, LeavesAlone;
      var p := vs[..|vs| - 1];
      forall i | 0 <= i < |p| ensures LeavesAlone(Run(m, p[..i]), p[i], h) { assert p[..i] == vs[..i]; }
      StaysBlocked(m, p, h);
      assert LeavesAlone(Run(m, vs[..|p|]), vs[|p|], h);
      BlockedNext(Run(m, p), vs[|p|], h);
    }
  }

  lemma BlockedNext(m: Machine, v: Move, h: Hash)
    requires Tabled(m) && Blocked(m, h) && h !in m.batch && LeavesAlone(m, v, h)
    ensures Blocked(Next(m, v), h) && h !in Next(m, v).batch
  {}

  /** Whenever the last DELETE of a purge is due while the engine holds one of its transactions, a failure to persist
      the hashes loses the repurge: the rollback that is sent again finds nothing to purge, and once the transaction is
      confirmed again its stale score keeps it from being scored. */
  lemma PersistFailureBlocks(m: Machine, slot: int, h: Hash, confirmed: int)
    requires Tabled(m) && Counted(m) && m.purge == Some(Purging(Past(m.st.txs, slot), DELETES - 1))
    requires h in m.batch && h in m.purge.value.hashes && h !in m.pending
    ensures var lost := Next(Next(Next(m, DeleteNext), PersistFails), WriteScores);
            && Next(lost, SelectPast(slot)) == lost
            && Blocked(Next(lost, InsertTxs(map[h := Some(confirmed)])), h)
  {
    var done := Next(m, DeleteNext);
    Completed(m, slot, h);
    var failed := Next(done, PersistFails);
    assert failed.batch == m.batch && failed.purgedAt == done.purgedAt && failed.st == done.st;
    var lost := Next(failed, WriteScores);
    assert lost.st.scores[h] == m.batchAt && lost.purgedAt == done.purgedAt;
    assert lost.st.txs == done.st.txs;
  }

  lemma Completed(m: Machine, slot: int, h: Hash)
    requires Tabled(m) && Counted(m) && m.purge == Some(Purging(Past(m.st.txs, slot), DELETES - 1))
    requires h in m.purge.value.hashes
    ensures var n := Next(m, DeleteNext);
            && n.purge == None && Past(n.st.txs, slot) == {} && n.batch == m.batch && n.batchAt == m.batchAt
            && h in n.purgedAt && n.purgedAt[h] > m.batchAt && n.pending == m.pending
  {}

  /** The same when the engine holds the transaction for longer than the repurge waits. */
  lemma LateBatchBlocks(m: Machine, h: Hash)
    requires Tabled(m) && Counted(m) && StaleBatch(m, h) && h in m.st.txs && h !in m.unsaved
    ensures Blocked(Next(Next(Next(m, DeleteScores({h})), ClearPending({h})), WriteScores), h)
  {
    var n := Next(Next(m, DeleteScores({h})), ClearPending({h}));
    assert h !in n.pending && n.batch == m.batch && n.batchAt == m.batchAt && n.purgedAt == m.purgedAt;
    assert n.st.txs == m.st.txs && n.unsaved == m.unsaved;
  }

  /** The hashes of a completed purge are saved, and at once cleared while a batch from before it is held. */
  lemma ClearedEarly(done: Machine, h: Hash, confirmed: int)
    requires Tabled(done) && StaleBatch(done, h) && h in done.unsaved
    ensures var saved := Next(done, Persist);
            var written := Next(Next(saved, ClearPending({h})), WriteScores);
            && h in saved.pending && saved.unsaved == {} && written.unsaved == {}
            && Blocked(Next(Next(written, Restart), InsertTxs(map[h := Some(confirmed)])), h)
  {
    var cleared := Next(Next(done, Persist), ClearPending({h}));
    assert h !in cleared.pending && cleared.unsaved == {};
    assert cleared.batch == done.batch && cleared.batchAt == done.batchAt && cleared.purgedAt == done.purgedAt;
    var written := Next(cleared, WriteScores);
    assert written.st.scores[h] == done.batchAt && written.purgedAt == done.purgedAt;
  }

  /** The same when the saved hashes of a purge are cleared on account of an earlier repurge, which deleted the scores
      before it, while the engine holds what it fetched in between; the restart ends the repurge that only waits in
      memory. */
  lemma SecondPurgeBlocks(m: Machine, slot: int, h: Hash, confirmed: int)
    requires Tabled(m) && Counted(m) && m.purge == Some(Purging(Past(m.st.txs, slot), DELETES - 1))
    requires h in m.batch && h in m.purge.value.hashes
    ensures var saved := Next(Next(m, DeleteNext), Persist);
            var written := Next(Next(saved, ClearPending({h})), WriteScores);
            && h in saved.pending && saved.unsaved == {} && written.unsaved == {}
            && Blocked(Next(Next(written, Restart), InsertTxs(map[h := Some(confirmed)])), h)
  {
    Completed(m, slot, h);
    assert Next(m, DeleteNext).unsaved == m.purge.value.hashes;
    hide Next, Counted, Past, Blocked;
    ClearedEarly(Next(m, DeleteNext), h, confirmed);
  }

  // ---------------------------------------------------------------- a discipline the service can follow

  /** The store before anything happened. */
  const NOTHING := Store(map[], NO_FACTS, map[])

  lemma EveryTableStands()
    ensures forall t: Table :: t in NOTHING.facts
  {
    forall t: Table ensures t in NOTHING.facts { var k := EveryTableIsCleaned(t); }
  }

  function Empty(): (m: Machine)
    ensures Tabled(m)
  {
    EveryTableStands();
    Machine(NOTHING, {}, None, 0, map[], {}, 0, {}, {})
  }

  lemma EmptyIsSound()
    ensures Counted(Empty()) && Covered(Empty()) && Ordered(Empty())
  {}

  /** Move `j` of a run deletes the scores of `hs` while the engine holds no batch of them fetched before their purge,
      and no move from there to move `i` completes another purge of any of them. */
  ghost predicate RepurgedAt(m: Machine, vs: seq<Move>, j: nat, i: nat, hs: set<Hash>)
    requires Tabled(m) && j < i <= |vs|
  {
    && vs[j] == DeleteScores(hs)
    && (forall h :: h in hs ==> !StaleBatch(Run(m, vs[..j]), h))
    && (forall k :: j < k < i ==> Spares(Run(m, vs[..k]), vs[k], hs))
  }

  /** Pending hashes are cleared only after such a repurge, and neither a failure to persist nor a restart comes between
      a purge and the persisting of its hashes. */
  ghost predicate Disciplined(m: Machine, vs: seq<Move>, i: nat)
    requires Tabled(m) && i < |vs|
  {
    match vs[i]
    case PersistFails => Run(m, vs[..i]).unsaved == {}
    case Restart => Run(m, vs[..i]).unsaved == {}
    case ClearPending(hs) => exists j :: 0 <= j < i && RepurgedAt(m, vs, j, i, hs)
    case _ => true
  }

  lemma {:induction false} RunsAreCounted(m: Machine, vs: seq<Move>)
    requires Tabled(m) && Counted(m)
    ensures Counted(Run(m, vs))
  {
    hide Counted, Next;
    if vs != [] {
      RunsAreCounted(m, vs[..|vs| - 1]);
      StaysCounted(Run(m, vs[..|vs| - 1]), vs[|vs| - 1]);
      RunNext(m, vs);
    }
  }

  lemma {:induction false} RunJoins(m: Machine, a: seq<Move>, b: seq<Move>)
    requires Tabled(m)
    ensures Run(m, a + b) == Run(Run(m, a), b)
  {
    if b == [] {
      assert a + b == a;
    } else {
      hide Next;
      RunJoins(m, a, b[..|b| - 1]);
      assert (a + b)[..|a + b| - 1] == a + b[..|b| - 1];
    }
  }

  /** A disciplined clearing meets the guard. */
  lemma RepurgeGuards(m: Machine, vs: seq<Move>, j: nat, i: nat, hs: set<Hash>)
    requires Tabled(m) && Counted(m) && j < i <= |vs| && RepurgedAt(m, vs, j, i, hs)
    ensures CoverGuard(Run(m, vs[..i]), ClearPending(hs))
  {
    hide Counted, Next, Spares, StaleBatch, CoverGuard, Run;
    var b, rest := Run(m, vs[..j]), vs[j + 1..i];
    RunsAreCounted(m, vs[..j]);
    assert vs[..j + 1][..j] == vs[..j];
    RunNext(m, vs[..j + 1]);
    forall k | 0 <= k < |rest| ensures Spares(Run(Next(b, DeleteScores(hs)), rest[..k]), rest[k], hs) {
      assert vs[..j + 1] + rest[..k] == vs[..j + 1 + k];
      RunJoins(m, vs[..j + 1], rest[..k]);
      assert Spares(Run(m, vs[..j + 1 + k]), vs[j + 1 + k], hs);
    }
    RepurgeInTime(b, hs, rest);
    assert vs[..j + 1] + rest == vs[..i];
    RunJoins(m, vs[..j + 1], rest);
  }

  lemma DisciplineGuards(m: Machine, vs: seq<Move>, i: nat)
    requires Tabled(m) && Counted(m) && i < |vs| && Disciplined(m, vs, i)
    ensures CoverGuard(Run(m, vs[..i]), vs[i])
  {
    if vs[i].ClearPending? {
      hide Run, RepurgedAt, Counted;
      var j :| 0 <= j < i && RepurgedAt(m, vs, j, i, vs[i].hashes);
      RepurgeGuards(m, vs, j, i, vs[i].hashes);
    }
  }

  /** From an empty store, a disciplined run never leaves a transaction blocked by a stale score, and once a hash is no
      longer due for a repurge no score older than its purge is left of it or in flight, whatever inserts, purges,
      fetches, failures and scores the run interleaves. */
  lemma NothingBlocksRescoring(vs: seq<Move>, i: nat, h: Hash)
    requires i <= |vs| && forall k :: 0 <= k < |vs| ==> Disciplined(Empty(), vs, k)
    ensures !Blocked(Run(Empty(), vs[..i]), h)
    ensures var m := Run(Empty(), vs[..i]);
              h !in m.pending && h !in m.unsaved ==> !StaleScore(m, h) && !StaleBatch(m, h)
  {
    hide Counted, Next, CoverGuard, Disciplined, Run, StaleScore, StaleBatch;
    EmptyIsSound();
    var p := vs[..i];
    forall k | 0 <= k < |p| ensures CoverGuard(Run(Empty(), p[..k]), p[k]) {
      assert p[..k] == vs[..k] && p[k] == vs[k];
      DisciplineGuards(Empty(), vs, k);
    }
    GuardedRunsCover(Empty(), p);
  }

  // ---------------------------------------------------------------- concrete runs that leave it

  const TX: Hash := "tx"

  lemma RunTwo(m: Machine, a: Move, b: Move)
    requires Tabled(m)
    ensures Run(m, [a, b]) == Next(Next(m, a), b)
  {
    hide Next;
    assert [a, b][..1] == [a] && [a][..0] == [];
    assert Run(m, []) == m && Run(m, [a]) == Next(m, a);
  }

  lemma RunFour(m: Machine, a: Move, b: Move, c: Move, d: Move)
    requires Tabled(m)
    ensures Run(m, [a, b, c, d]) == Next(Next(Next(Next(m, a), b), c), d)
  {
    hide Next, Run;
    RunTwo(m, a, b);
    RunTwo(Run(m, [a, b]), c, d);
    RunJoins(m, [a, b], [c, d]);
    assert [a, b] + [c, d] == [a, b, c, d];
  }

  /** `n` DELETEs of a purge. */
  function Deletes(n: nat): seq<Move> {
    seq(n, _ => DeleteNext)
  }

  lemma {:induction false} DeletesRun(m: Machine, hs: set<Hash>, n: nat)
    requires Tabled(m) && m.purge == Some(Purging(hs, 0)) && n < DELETES
    ensures var r := Run(m, Deletes(n));
            && r.purge == Some(Purging(hs, n)) && r.st.txs == m.st.txs && r.inserting == m.inserting
            && r.batch == m.batch && r.batchAt == m.batchAt && r.pending == m.pending && r.unsaved == m.unsaved
            && r.purges == m.purges && r.purgedAt == m.purgedAt
  {
    if n > 0 {
      DeletesRun(m, hs, n - 1);
      assert Deletes(n)[..n - 1] == Deletes(n - 1);
      RunNext(m, Deletes(n));
    }
  }

  /** A transaction arrives at slot 5, is fetched by the engine or still has its insert in flight, and a rollback to
      slot 0 selects it. */
  function Arrival(fetched: bool): seq<Move> {
    if fetched then [InsertTxs(map[TX := Some(5)]), EndInsert, Fetch({TX}), SelectPast(0)]
    else [InsertTxs(map[TX := Some(5)]), SelectPast(0)]
  }

  /** And its purge reaches the last DELETE. */
  function LastDelete(fetched: bool): seq<Move> {
    Arrival(fetched) + Deletes(DELETES - 1)
  }

  ghost predicate Arrived(m: Machine, fetched: bool, done: nat) {
    && m.st.txs == map[TX := Some(5)] && m.purge == Some(Purging({TX}, done)) && m.pending == {} && m.unsaved == {}
    && (if fetched then m.batch == {TX} && m.inserting == {} else m.inserting == {TX})
  }

  lemma OneTx()
    ensures Past(map[TX := Some(5)], 0) == {TX}
  {
    assert TX in Past(map[TX := Some(5)], 0);
  }

  lemma FetchedArrives()
    ensures Arrived(Run(Empty(), Arrival(true)), true, 0)
  {
    var insert := InsertTxs(map[TX := Some(5)]);
    RunFour(Empty(), insert, EndInsert, Fetch({TX}), SelectPast(0));
    OneTx();
    hide Past, Run;
    var one := Next(Empty(), insert);
    assert one.st.txs == map[TX := Some(5)];
    var three := Next(Next(one, EndInsert), Fetch({TX}));
    assert three.batch == {TX};
  }

  lemma InFlightArrives()
    ensures Arrived(Run(Empty(), Arrival(false)), false, 0)
  {
    var insert := InsertTxs(map[TX := Some(5)]);
    RunTwo(Empty(), insert, SelectPast(0));
    OneTx();
    hide Past, Run;
    assert Next(Empty(), insert).st.txs == map[TX := Some(5)];
  }

  lemma LastDeleteReached(fetched: bool)
    ensures var m := Run(Empty(), LastDelete(fetched)); Arrived(m, fetched, DELETES - 1) && Counted(m)
  {
    hide Run, Counted, Arrival, Covered, Ordered;
    EmptyIsSound();
    RunsAreCounted(Empty(), LastDelete(fetched));
    if fetched { FetchedArrives(); } else { InFlightArrives(); }
    RunJoins(Empty(), Arrival(fetched), Deletes(DELETES - 1));
    DeletesRun(Run(Empty(), Arrival(fetched)), {TX}, DELETES - 1);
  }

  /** From an empty store: a failure to persist, and the transaction is confirmed again but never scored. */
  lemma PersistFailureRun()
    ensures var failed := [DeleteNext, PersistFails, WriteScores, InsertTxs(map[TX := Some(6)])];
            Blocked(Run(Empty(), LastDelete(true) + failed), TX)
  {
    LastDeleteReached(true);
    OneTx();
    var m := Run(Empty(), LastDelete(true));
    PersistFailureBlocks(m, 0, TX, 6);
    RunFour(m, DeleteNext, PersistFails, WriteScores, InsertTxs(map[TX := Some(6)]));
    RunJoins(Empty(), LastDelete(true), [DeleteNext, PersistFails, WriteScores, InsertTxs(map[TX := Some(6)])]);
  }

  /** Purged, its hashes saved, and confirmed again, while the engine still holds it. */
  lemma StillHeld(m: Machine)
    requires Tabled(m) && Counted(m) && Arrived(m, true, DELETES - 1)
    ensures var back := Next(Next(Next(m, DeleteNext), Persist), InsertTxs(map[TX := Some(6)]));
            Counted(back) && StaleBatch(back, TX) && TX in back.st.txs && TX !in back.unsaved
  {
    OneTx();
    Completed(m, 0, TX);
    StaysCounted(m, DeleteNext);
    StaysCounted(Next(m, DeleteNext), Persist);
    StaysCounted(Next(Next(m, DeleteNext), Persist), InsertTxs(map[TX := Some(6)]));
  }

  /** From an empty store: the engine writes its batch after the repurge. */
  lemma LateBatchRun()
    ensures var back := LastDelete(true) + [DeleteNext, Persist, InsertTxs(map[TX := Some(6)]), DeleteScores({TX})];
            Blocked(Run(Empty(), back + [ClearPending({TX}), WriteScores]), TX)
  {
    hide Next, Run, Counted, Blocked, StaleBatch, LastDelete, Arrived;
    LastDeleteReached(true);
    var start, m, again := LastDelete(true), Run(Empty(), LastDelete(true)), InsertTxs(map[TX := Some(6)]);
    StillHeld(m);
    var back := Next(Next(Next(m, DeleteNext), Persist), again);
    LateBatchBlocks(back, TX);
    RunFour(m, DeleteNext, Persist, again, DeleteScores({TX}));
    RunJoins(Empty(), start, [DeleteNext, Persist, again, DeleteScores({TX})]);
    RunTwo(Next(back, DeleteScores({TX})), ClearPending({TX}), WriteScores);
    RunJoins(Empty(), start + [DeleteNext, Persist, again, DeleteScores({TX})], [ClearPending({TX}), WriteScores]);
  }

  /** From an empty store: an insert still in flight when its transaction is purged. */
  lemma OverlapRun(t: Table)
    ensures !FactsHaveTxs(Run(Empty(), LastDelete(false) + [InsertFacts(t, {TX}), DeleteNext]).st)
  {
    LastDeleteReached(false);
    var m := Run(Empty(), LastDelete(false));
    OverlapOrphans(m, TX, t);
    var vs := [InsertFacts(t, {TX}), DeleteNext];
    RunTwo(m, InsertFacts(t, {TX}), DeleteNext);
    RunJoins(Empty(), LastDelete(false), vs);
  }

  /** The transaction is scored, purged and confirmed again, and the repurge deletes its stale score. */
  function Repurge(): seq<Move> {
    LastDelete(true) + [WriteScores, DeleteNext, Persist, InsertTxs(map[TX := Some(5)])]
    + [EndInsert, DeleteScores({TX})]
  }

  /** Before its hashes are cleared, the transaction is fetched again and a second rollback takes it. */
  function SecondPurge(): seq<Move> {
    Repurge() + [Fetch({TX}), SelectPast(0)] + Deletes(DELETES - 1)
  }

  ghost predicate Refetchable(m: Machine) {
    && m.st.txs == map[TX := Some(5)] && TX !in m.st.scores
    && m.purge == None && m.batch == {} && m.unsaved == {}
  }

  lemma ScoredThenPurged(m: Machine)
    requires Tabled(m) && Arrived(m, true, DELETES - 1)
    ensures var n := Next(Next(m, WriteScores), DeleteNext);
            n.st.txs == map[] && n.purge == None && n.batch == {}
  {
    assert map[TX := Some(5)] - {TX} == map[];
  }

  lemma ConfirmedThenDeleted(m: Machine)
    requires Tabled(m) && m.st.txs == map[] && m.purge == None && m.batch == {}
    ensures var back := Next(Next(m, Persist), InsertTxs(map[TX := Some(5)]));
            Refetchable(Next(Next(back, EndInsert), DeleteScores({TX})))
  {
    var add: map<Hash, Option<int>> := map[TX := Some(5)];
    assert m.st.txs + add == add;
  }

  lemma Repurged()
    ensures Refetchable(Run(Empty(), Repurge()))
  {
    hide Next, Run, Arrived, LastDelete, Refetchable, Counted;
    LastDeleteReached(true);
    var start, m, again := LastDelete(true), Run(Empty(), LastDelete(true)), InsertTxs(map[TX := Some(5)]);
    ScoredThenPurged(m);
    ConfirmedThenDeleted(Next(Next(m, WriteScores), DeleteNext));
    var four, two := [WriteScores, DeleteNext, Persist, again], [EndInsert, DeleteScores({TX})];
    RunFour(m, WriteScores, DeleteNext, Persist, again);
    RunTwo(Run(m, four), EndInsert, DeleteScores({TX}));
    RunJoins(Empty(), start, four);
    RunJoins(Empty(), start + four, two);
  }

  lemma SecondSelected(m: Machine)
    requires Tabled(m) && Refetchable(m)
    ensures var n := Next(Next(m, Fetch({TX})), SelectPast(0));
            n.st.txs == map[TX := Some(5)] && n.purge == Some(Purging({TX}, 0)) && n.batch == {TX}
  {
    OneTx();
    hide Past;
    var held := Next(m, Fetch({TX}));
    assert held.batch == {TX};
    assert HandlerIdle(held) && held.st.txs == m.st.txs;
  }

  lemma SecondPurgeReached()
    ensures var m := Run(Empty(), SecondPurge());
            Counted(m) && m.purge == Some(Purging(Past(m.st.txs, 0), DELETES - 1)) && m.batch == {TX}
            && m.purge.value.hashes == {TX}
  {
    hide Next, Run, Counted, Covered, Ordered, Repurge, Refetchable, Past;
    OneTx();
    EmptyIsSound();
    RunsAreCounted(Empty(), SecondPurge());
    Repurged();
    var m, two := Run(Empty(), Repurge()), [Fetch({TX}), SelectPast(0)];
    SecondSelected(m);
    RunTwo(m, Fetch({TX}), SelectPast(0));
    RunJoins(Empty(), Repurge(), two);
    DeletesRun(Run(m, two), {TX}, DELETES - 1);
    RunJoins(Empty(), Repurge() + two, Deletes(DELETES - 1));
  }

  /** From an empty store, with every purge's hashes saved before anything fails and no older batch held when the scores
      are deleted: the first repurge clears what the second purge saved. */
  lemma SecondPurgeRun()
    ensures Refetchable(Run(Empty(), Repurge()))
    ensures var written := SecondPurge() + [DeleteNext, Persist, ClearPending({TX}), WriteScores];
            && Run(Empty(), written).unsaved == {}
            && Blocked(Run(Empty(), written + [Restart, InsertTxs(map[TX := Some(6)])]), TX)
  {
    hide Next, Run, Counted, Past, Blocked, SecondPurge, Repurge, Refetchable;
    Repurged();
    SecondPurgeReached();
    var m, again := Run(Empty(), SecondPurge()), InsertTxs(map[TX := Some(6)]);
    SecondPurgeBlocks(m, 0, TX, 6);
    var four := [DeleteNext, Persist, ClearPending({TX}), WriteScores];
    RunFour(m, DeleteNext, Persist, ClearPending({TX}), WriteScores);
    RunTwo(Run(m, four), Restart, again);
    RunJoins(Empty(), SecondPurge(), four);
    RunJoins(Empty(), SecondPurge() + four, [Restart, again]);
  }
}
