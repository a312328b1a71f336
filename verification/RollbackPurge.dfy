/** The chain-rollback purge of the warehouse, its second pass over the scores, and the insert path. */
module RollbackPurge {
  import opened Collections

  type Hash = string

  /** The tables of per-transaction chain facts. */
  datatype Table = Inputs | Outputs | UtxoFeatures | ScriptFeatures | AddressIndex

  /** The order in which a purge clears the fact tables; tx_class_scores and then transactions follow. */
  const CLEANUP: seq<Table> := [Inputs, Outputs, UtxoFeatures, ScriptFeatures, AddressIndex]

  /** The order in which an insert fills them, after transactions (the address index is a view on that insert). */
  const INSERTS: seq<Table> := [AddressIndex, Inputs, Outputs, UtxoFeatures, ScriptFeatures]

  /** How many DELETE statements a whole purge takes. */
  const DELETES: nat := 7

  /** One network's tables: each transaction's slot (none while unconfirmed), the transactions each fact table has rows
      of, and each score with the number of the purge that had last completed when its transaction was fetched. */
  datatype Store = Store(txs: map<Hash, Option<int>>, facts: map<Table, set<Hash>>, scores: map<Hash, nat>)

  /** Fact tables without rows. */
  const NO_FACTS: map<Table, set<Hash>> :=
    map[Inputs := {}, Outputs := {}, UtxoFeatures := {}, ScriptFeatures := {}, AddressIndex := {}]

  ghost predicate Valid(st: Store) {
    forall t: Table :: t in st.facts
  }

  function Past(txs: map<Hash, Option<int>>, slot: int): set<Hash> {
    set h | h in txs && txs[h].Some? && txs[h].value > slot
  }

  /** The k-th DELETE of a purge. */
  function Delete(st: Store, k: nat, hs: set<Hash>): Store
    requires forall t: Table :: t in st.facts
  {
    if k < |CLEANUP| then st.(facts := st.facts[CLEANUP[k] := st.facts[CLEANUP[k]] - hs])
    else if k == |CLEANUP| then st.(scores := st.scores - hs)
    else st.(txs := st.txs - hs)
  }

  /** The first n DELETEs. */
  function Deleted(st: Store, hs: set<Hash>, n: nat): (r: Store)
    requires forall t: Table :: t in st.facts
    ensures forall t: Table :: t in r.facts
  {
    if n == 0 then st else Delete(Deleted(st, hs, n - 1), n - 1, hs)
  }

  /** A purge past `slot` of which n statements succeed. */
  function Purged(st: Store, slot: int, n: nat): (r: Store)
    requires forall t: Table :: t in st.facts
    ensures forall t: Table :: t in r.facts
  {
    Deleted(st, Past(st.txs, slot), n)
  }

  /** No fact row outlives its transaction's row. */
  ghost predicate FactsHaveTxs(st: Store) {
    forall t: Table :: t in st.facts && st.facts[t] <= st.txs.Keys
  }

  // ---------------------------------------------------------------- inserts

  /** A transaction to insert, with the fact tables it brings rows for. */
  datatype Record = Record(hash: Hash, slot: Option<int>, tables: set<Table>)

  function Slots(txs: map<Hash, Option<int>>, batch: seq<Record>): map<Hash, Option<int>> {
    if batch == [] then txs
    else Slots(txs, batch[..|batch| - 1])[batch[|batch| - 1].hash := batch[|batch| - 1].slot]
  }

  function Holders(batch: seq<Record>, t: Table): set<Hash> {
    set i | 0 <= i < |batch| && t in batch[i].tables :: batch[i].hash
  }

  /** An insert of which n statements succeed. */
  function Inserted(st: Store, batch: seq<Record>, n: nat): (r: Store)
    requires (forall t: Table :: t in st.facts) && n <= 1 + |INSERTS|
    ensures forall t: Table :: t in r.facts
  {
    if n == 0 then st
    else if n == 1 then st.(txs := Slots(st.txs, batch))
    else
      var b := Inserted(st, batch, n - 1);
      var t := INSERTS[n - 2];
      b.(facts := b.facts[t := b.facts[t] + Holders(batch, t)])
  }

  // ---------------------------------------------------------------- the warehouse as the two paths change it

  class Warehouse {
    var txs: map<Hash, Option<int>>
    var facts: map<Table, set<Hash>>
    var scores: map<Hash, nat>

    ghost predicate Ready()
      reads this
    {
      forall t: Table :: t in facts
    }

    ghost function Now(): Store
      reads this
    {
      Store(txs, facts, scores)
    }

    constructor ()
      ensures Ready() && Now() == Store(map[], NO_FACTS, map[])
    {
      txs, scores := map[], map[];
      facts := NO_FACTS;
      new;
      forall t: Table ensures t in facts { var k := EveryTableIsCleaned(t); }
    }

    /** `succeeds` statements succeed before one raises. */
    method DeleteRolledBackTxs(slot: int, succeeds: nat) returns (hashes: Option<set<Hash>>)
      requires Ready()
      modifies this
      ensures Ready()
      ensures var past := Past(old(txs), slot);
              if past == {} then hashes == Some({}) && Now() == old(Now())
              else if succeeds < DELETES then hashes == None && Now() == Purged(old(Now()), slot, succeeds)
              else hashes == Some(past) && Now() == Purged(old(Now()), slot, DELETES)
      ensures hashes.Some? ==>
                forall h :: h in hashes.value <==> h in old(txs) && old(txs)[h].Some? && old(txs)[h].value > slot
      ensures forall h :: h in old(txs) && (old(txs)[h].None? || old(txs)[h].value <= slot) ==>
                Untouched(old(Now()), Now(), h)
    {
      var hs := set h | h in txs && txs[h].Some? && txs[h].value > slot;
      ghost var before := Now();
      forall n: nat, h | n <= DELETES && h in txs && (txs[h].None? || txs[h].value <= slot)
        ensures Untouched(before, Purged(before, slot, n), h)
      {
        PurgeSpares(before, slot, n, h);
      }
      if hs == {} { return Some({}); }
      for i := 0 to |CLEANUP|
        invariant Ready() && i <= succeeds && Now() == Deleted(old(Now()), hs, i)
      {
        if i == succeeds { return None; }
        facts := facts[CLEANUP[i] := facts[CLEANUP[i]] - hs];
      }
      if succeeds == |CLEANUP| { return None; }
      scores := scores - hs;
      assert Now() == Deleted(old(Now()), hs, |CLEANUP| + 1);
      if succeeds == |CLEANUP| + 1 { return None; }
      txs := txs - hs;
      return Some(hs);
    }

    /** The second pass. */
    method DeleteScoreRows(hashes: set<Hash>)
      requires Ready()
      modifies this`scores
      ensures Now() == old(Now()).(scores := old(scores) - hashes)
    {
      if hashes == {} {
        assert scores - {} == scores;
        return;
      }
      scores := scores - hashes;
    }

    method InsertTransactionsBatch(batch: seq<Record>, succeeds: nat)
      requires Ready()
      modifies this`txs, this`facts
      ensures Ready()
      ensures batch != [] ==>
                Now() == Inserted(old(Now()), batch, if succeeds <= 1 + |INSERTS| then succeeds else 1 + |INSERTS|)
      ensures batch == [] ==> Now() == old(Now())
    {
      if batch == [] || succeeds == 0 { return; }
      var all := txs;
      for i := 0 to |batch|
        invariant all == Slots(old(txs), batch[..i])
      {
        assert batch[..i + 1][..i] == batch[..i];
        all := all[batch[i].hash := batch[i].slot];
      }
      assert batch[..|batch|] == batch;
      txs := all;
      for i := 0 to |INSERTS|
        invariant Ready() && i + 1 <= succeeds && Now() == Inserted(old(Now()), batch, i + 1)
      {
        if i + 1 == succeeds { return; }
        var t := INSERTS[i];
        var holders := set j | 0 <= j < |batch| && t in batch[j].tables :: batch[j].hash;
        if holders != {} {
          facts := facts[t := facts[t] + holders];
        } else {
          assert facts[t] + {} == facts[t];
          assert facts[t := facts[t]] == facts;
        }
      }
    }
  }

  // ---------------------------------------------------------------- the purge on its own

  lemma {:induction false} DeletedParts(st: Store, hs: set<Hash>, n: nat)
    requires Valid(st) && n <= DELETES
    ensures var r := Deleted(st, hs, n);
            && r.txs == (if n == DELETES then st.txs - hs else st.txs)
            && r.scores == (if n > |CLEANUP| then st.scores - hs else st.scores)
            && (forall k :: 0 <= k < |CLEANUP| ==>
                r.facts[CLEANUP[k]] == if k < n then st.facts[CLEANUP[k]] - hs else st.facts[CLEANUP[k]])
  {
    if n > 0 {
      DeletedParts(st, hs, n - 1);
      assert forall j, k :: 0 <= j < k < |CLEANUP| ==> CLEANUP[j] != CLEANUP[k];
    }
  }

  /** The transaction's row, its score and its fact rows are the same in both stores. */
  ghost predicate Untouched(a: Store, b: Store, h: Hash) {
    && (h in a.txs <==> h in b.txs) && (h in a.txs && h in b.txs ==> a.txs[h] == b.txs[h])
    && (h in a.scores <==> h in b.scores) && (h in a.scores && h in b.scores ==> a.scores[h] == b.scores[h])
    && forall t: Table :: t in a.facts && t in b.facts ==> (h in a.facts[t] <==> h in b.facts[t])
  }

  /** However many of its statements succeed, a purge leaves alone what is unconfirmed or at most at the slot rolled
      back to. */
  lemma PurgeSpares(st: Store, slot: int, n: nat, h: Hash)
    requires Valid(st) && n <= DELETES && h in st.txs && (st.txs[h].None? || st.txs[h].value <= slot)
    ensures Untouched(st, Purged(st, slot, n), h)
  {
    var hs, r := Past(st.txs, slot), Purged(st, slot, n);
    DeletedParts(st, hs, n);
    forall t: Table ensures h in st.facts[t] <==> h in r.facts[t] {
      var k := EveryTableIsCleaned(t);
      assert r.facts[CLEANUP[k]] == if k < n then st.facts[CLEANUP[k]] - hs else st.facts[CLEANUP[k]];
    }
  }

  /** A whole one leaves nothing of what is past it. */
  lemma PurgeRemoves(st: Store, slot: int, h: Hash)
    requires Valid(st) && h in st.txs && st.txs[h].Some? && st.txs[h].value > slot
    ensures var r := Purged(st, slot, DELETES);
            h !in r.txs && h !in r.scores && forall t: Table :: h !in r.facts[t]
  {
    var hs, r := Past(st.txs, slot), Purged(st, slot, DELETES);
    DeletedParts(st, hs, DELETES);
    forall t: Table ensures h !in r.facts[t] { var k := EveryTableIsCleaned(t); }
  }

  lemma EveryTableIsCleaned(t: Table) returns (k: nat)
    ensures k < |CLEANUP| && CLEANUP[k] == t
  {
    k := match t
         case Inputs => 0
         case Outputs => 1
         case UtxoFeatures => 2
         case ScriptFeatures => 3
         case AddressIndex => 4;
  }

  /** However many of its statements succeed, a purge keeps the facts within the transactions; a whole one leaves no row
      of a transaction past the slot in any table, and removes nothing else. */
  lemma PurgeKeepsFacts(st: Store, slot: int, n: nat)
    requires FactsHaveTxs(st) && n <= DELETES
    ensures FactsHaveTxs(Purged(st, slot, n))
    ensures n == DELETES ==>
              var (r, hs) := (Purged(st, slot, n), Past(st.txs, slot));
              && (forall h :: h in r.txs ==> r.txs[h].None? || r.txs[h].value <= slot)
              && r.txs == st.txs - hs && r.scores == st.scores - hs
              && (forall t: Table :: r.facts[t] == st.facts[t] - hs && r.facts[t] <= r.txs.Keys)
  {
    var hs, r := Past(st.txs, slot), Purged(st, slot, n);
    DeletedParts(st, hs, n);
    forall t: Table ensures r.facts[t] <= r.txs.Keys && (n == DELETES ==> r.facts[t] == st.facts[t] - hs) {
      var k := EveryTableIsCleaned(t);
      assert r.facts[CLEANUP[k]] == if k < n then st.facts[CLEANUP[k]] - hs else st.facts[CLEANUP[k]];
      assert st.facts[t] <= st.txs.Keys;
    }
  }

  lemma SameStore(a: Store, b: Store)
    requires Valid(a) && Valid(b) && a.txs == b.txs && a.scores == b.scores
    requires forall k :: 0 <= k < |CLEANUP| ==> a.facts[CLEANUP[k]] == b.facts[CLEANUP[k]]
    ensures a == b
  {
    forall t: Table ensures a.facts[t] == b.facts[t] { var k := EveryTableIsCleaned(t); }
    assert a.facts == b.facts;
  }

  /** A purge that fails part way and is retried does what the unbroken purge does: transactions, which the hashes are
      selected from, goes last. */
  lemma RetryCompletes(st: Store, slot: int, n: nat)
    requires Valid(st) && n < DELETES
    ensures Purged(Purged(st, slot, n), slot, DELETES) == Purged(st, slot, DELETES)
  {
    hide Deleted, Past;
    var hs, part := Past(st.txs, slot), Purged(st, slot, n);
    DeletedParts(st, hs, n);
    DeletedParts(st, hs, DELETES);
    DeletedParts(part, hs, DELETES);
    SameStore(Deleted(part, hs, DELETES), Deleted(st, hs, DELETES));
  }

  function Attempts(st: Store, slot: int, ns: seq<nat>): (r: Store)
    requires forall t: Table :: t in st.facts
    ensures forall t: Table :: t in r.facts
  {
    if ns == [] then st else Purged(Attempts(st, slot, ns[..|ns| - 1]), slot, ns[|ns| - 1])
  }

  /** So it is after any number of partial failures. */
  lemma {:induction false} RetriesComplete(st: Store, slot: int, ns: seq<nat>)
    requires Valid(st) && forall i :: 0 <= i < |ns| ==> ns[i] < DELETES
    ensures Purged(Attempts(st, slot, ns), slot, DELETES) == Purged(st, slot, DELETES)
  {
    hide Purged;
    if ns != [] {
      RetriesComplete(st, slot, ns[..|ns| - 1]);
      RetryCompletes(Attempts(st, slot, ns[..|ns| - 1]), slot, ns[|ns| - 1]);
    }
  }

  lemma {:induction false} SlotsKeys(txs: map<Hash, Option<int>>, batch: seq<Record>)
    ensures Slots(txs, batch).Keys == txs.Keys + set i | 0 <= i < |batch| :: batch[i].hash
  {
    if batch != [] { SlotsKeys(txs, batch[..|batch| - 1]); }
  }

  /** However many of its statements succeed, an insert keeps the facts within the transactions too. */
  lemma {:induction false} InsertKeepsFacts(st: Store, batch: seq<Record>, n: nat)
    requires FactsHaveTxs(st) && n <= 1 + |INSERTS|
    ensures FactsHaveTxs(Inserted(st, batch, n))
    ensures n > 0 ==> Inserted(st, batch, n).txs == Slots(st.txs, batch)
  {
    if n > 0 {
      InsertKeepsFacts(st, batch, n - 1);
      SlotsKeys(st.txs, batch);
    }
  }

  lemma EveryTableIsFilled(t: Table) returns (k: nat)
    ensures k < |INSERTS| && INSERTS[k] == t && forall j :: 0 <= j < |INSERTS| && INSERTS[j] == t ==> j == k
  {
    k := match t
         case AddressIndex => 0
         case Inputs => 1
         case Outputs => 2
         case UtxoFeatures => 3
         case ScriptFeatures => 4;
  }

  lemma {:induction false} InsertedTable(st: Store, batch: seq<Record>, n: nat, k: nat)
    requires Valid(st) && n <= 1 + |INSERTS| && k < |INSERTS|
    ensures Inserted(st, batch, n).facts[INSERTS[k]]
         == if k + 1 < n then st.facts[INSERTS[k]] + Holders(batch, INSERTS[k]) else st.facts[INSERTS[k]]
  {
    if n > 0 {
      InsertedTable(st, batch, n - 1, k);
      assert forall i, j :: 0 <= i < j < |INSERTS| ==> INSERTS[i] != INSERTS[j];
    }
  }

  /** Record `i` is the batch's last one of the transaction. */
  ghost predicate IsLast(batch: seq<Record>, i: nat, h: Hash)
    requires i < |batch|
  {
    batch[i].hash == h && forall j :: i < j < |batch| ==> batch[j].hash != h
  }

  lemma {:induction false} LastSlotStands(txs: map<Hash, Option<int>>, batch: seq<Record>, i: nat, h: Hash)
    requires i < |batch| && IsLast(batch, i, h)
    ensures h in Slots(txs, batch) && Slots(txs, batch)[h] == batch[i].slot
    decreases |batch|
  {
    var n := |batch| - 1;
    if i < n {
      assert batch[n].hash != h;
      LastSlotStands(txs, batch[..n], i, h);
    }
  }

  lemma {:induction false} OtherSlotsStay(txs: map<Hash, Option<int>>, batch: seq<Record>, h: Hash)
    requires forall i :: 0 <= i < |batch| ==> batch[i].hash != h
    ensures (h in Slots(txs, batch) <==> h in txs) && (h in txs ==> Slots(txs, batch)[h] == txs[h])
  {
    if batch != [] { OtherSlotsStay(txs, batch[..|batch| - 1], h); }
  }

  /** A whole insert gives each table exactly the batch's transactions that bring rows for it, and each transaction the
      slot of its last record; scores and everything else stay. */
  lemma InsertAddsExactly(st: Store, batch: seq<Record>, h: Hash, t: Table)
    requires Valid(st)
    ensures var r := Inserted(st, batch, 1 + |INSERTS|);
            && r.scores == st.scores
            && (h in r.facts[t] <==>
                  h in st.facts[t] || exists i :: 0 <= i < |batch| && batch[i].hash == h && t in batch[i].tables)
            && (forall i :: 0 <= i < |batch| && IsLast(batch, i, h) ==> h in r.txs && r.txs[h] == batch[i].slot)
            && ((forall i :: 0 <= i < |batch| ==> batch[i].hash != h) ==>
                  (h in r.txs <==> h in st.txs) && (h in st.txs ==> r.txs[h] == st.txs[h]))
  {
    hide Inserted, Slots, IsLast;
    var k := EveryTableIsFilled(t);
    InsertedTable(st, batch, 1 + |INSERTS|, k);
    InsertedRows(st, batch, 1 + |INSERTS|);
    forall i | 0 <= i < |batch| && IsLast(batch, i, h)
      ensures h in Slots(st.txs, batch) && Slots(st.txs, batch)[h] == batch[i].slot
    {
      LastSlotStands(st.txs, batch, i, h);
    }
    if forall i :: 0 <= i < |batch| ==> batch[i].hash != h { OtherSlotsStay(st.txs, batch, h); }
  }

  lemma {:induction false} InsertedRows(st: Store, batch: seq<Record>, n: nat)
    requires Valid(st) && n <= 1 + |INSERTS|
    ensures Inserted(st, batch, n).scores == st.scores
    ensures n > 0 ==> Inserted(st, batch, n).txs == Slots(st.txs, batch)
  {
    if n > 0 { InsertedRows(st, batch, n - 1); }
  }
}
