/** The bounded breadth-first search for a value cycle and the recovery of its path
    (`detect_cycle`, `_cycle_history`, `_ring_path`, `_spenders`). */
module CycleSearch {
  import opened Collections
  import ClosingReading

  // ---------------------------------------------------------------- the ledger tables

  // Addresses and hashes are named by their rank in string order, the only use the search makes of them.
  datatype Address = Address(rank: int)
  datatype TxHash = TxHash(rank: int)
  datatype Output = Output(address: Address, amount: nat)

  /** A transaction: its slot, the resolved addresses its regular inputs spend from, its regular outputs. */
  datatype Tx = Tx(hash: TxHash, slot: Option<nat>, spends: set<Address>, outputs: seq<Output>)

  /** The tables a search reads, listed in the hop query's (slot, hash) order, and the search's caps. */
  datatype World = World(ledger: seq<Tx>, origin: TxHash, maxAge: nat, maxOutputFanout: nat, maxFanout: nat,
                         rowLimit: nat)

  ghost predicate DistinctHashes(ledger: seq<Tx>) {
    forall i, j :: 0 <= i < j < |ledger| ==> ledger[i].hash != ledger[j].hash
  }

  function Find(ledger: seq<Tx>, hash: TxHash): Option<Tx> {
    if ledger == [] then None
    else if ledger[0].hash == hash then Some(ledger[0])
    else Find(ledger[1..], hash)
  }

  function OriginAddresses(w: World): set<Address> {
    match Find(w.ledger, w.origin) case None => {} case Some(tx) => tx.spends
  }

  function OriginOutputs(w: World): seq<Output> {
    match Find(w.ledger, w.origin) case None => [] case Some(tx) => tx.outputs
  }

  /** The origin's slot, with a missing slot read as 0. */
  function OriginSlot(w: World): nat {
    match Find(w.ledger, w.origin)
    case None => 0
    case Some(tx) => match tx.slot case None => 0 case Some(s) => s
  }

  function Recipients(w: World): set<Address> {
    (set o | o in OriginOutputs(w) :: o.address) - OriginAddresses(w)
  }

  // ---------------------------------------------------------------- the hop query

  /** What one transaction paid one address, its outputs there summed. */
  datatype Row = Row(tx: TxHash, address: Address, paid: nat, slot: nat)

  /** A transaction the hop query returns for a frontier: another one, in the window, spending from it. */
  predicate Follows(w: World, tx: Tx, frontier: set<Address>) {
    && tx.hash != w.origin
    && tx.slot.Some?
    && OriginSlot(w) <= tx.slot.value <= OriginSlot(w) + w.maxAge
    && tx.spends * frontier != {}
  }

  function PaidTo(outputs: seq<Output>, a: Address): nat {
    if outputs == [] then 0
    else PaidTo(outputs[1..], a) + if outputs[0].address == a then outputs[0].amount else 0
  }

  function InsertPayee(payees: seq<Address>, a: Address): seq<Address> {
    if payees == [] || a.rank < payees[0].rank then [a] + payees
    else if a.rank == payees[0].rank then payees
    else [payees[0]] + InsertPayee(payees[1..], a)
  }

  /** The addresses the outputs pay, each once, in address order. */
  function Payees(outputs: seq<Output>): seq<Address> {
    if outputs == [] then [] else InsertPayee(Payees(outputs[1..]), outputs[0].address)
  }

  function TxRows(tx: Tx): seq<Row>
    requires tx.slot.Some?
  {
    var payees := Payees(tx.outputs);
    seq(|payees|, i requires 0 <= i < |payees| => Row(tx.hash, payees[i], PaidTo(tx.outputs, payees[i]), tx.slot.value))
  }

  function HopRows(w: World, txs: seq<Tx>, frontier: set<Address>): seq<Row> {
    if txs == [] then []
    else (if Follows(w, txs[0], frontier) then TxRows(txs[0]) else []) + HopRows(w, txs[1..], frontier)
  }

  /** The hop query's answer: the rows in (slot, hash, address) order, cut at the row limit. */
  function Answer(w: World, frontier: set<Address>): seq<Row> {
    var rows := HopRows(w, w.ledger, frontier);
    if |rows| <= w.rowLimit then rows else rows[..w.rowLimit]
  }

  lemma InsertPayeeKeeps(payees: seq<Address>, a: Address)
    ensures forall x :: x in InsertPayee(payees, a) <==> x in payees || x == a
  {
    if payees != [] && a.rank >= payees[0].rank {
      assert payees == [payees[0]] + payees[1..];
      if a.rank == payees[0].rank { assert a == payees[0]; } else { InsertPayeeKeeps(payees[1..], a); }
    }
  }

  lemma {:induction false} PayeesAreThePaid(outputs: seq<Output>, a: Address)
    ensures a in Payees(outputs) <==> exists o :: o in outputs && o.address == a
  {
    if outputs != [] {
      assert outputs == [outputs[0]] + outputs[1..];
      PayeesAreThePaid(outputs[1..], a);
      InsertPayeeKeeps(Payees(outputs[1..]), outputs[0].address);
    }
  }

  ghost predicate Pays(tx: Tx, a: Address) {
    exists o :: o in tx.outputs && o.address == a
  }

  ghost predicate IsRowOf(tx: Tx, row: Row) {
    && tx.slot == Some(row.slot) && tx.hash == row.tx
    && Pays(tx, row.address) && row.paid == PaidTo(tx.outputs, row.address)
  }

  /** The rows are exactly what the following transactions paid. */
  lemma {:induction false} HopRowsMeaning(w: World, txs: seq<Tx>, frontier: set<Address>, row: Row)
    ensures row in HopRows(w, txs, frontier) <==> exists tx :: tx in txs && Follows(w, tx, frontier) && IsRowOf(tx, row)
  {
    if txs != [] {
      var tx := txs[0];
      assert txs == [tx] + txs[1..];
      HopRowsMeaning(w, txs[1..], frontier, row);
      if Follows(w, tx, frontier) {
        PayeesAreThePaid(tx.outputs, row.address);
        if IsRowOf(tx, row) {
          var i :| 0 <= i < |Payees(tx.outputs)| && Payees(tx.outputs)[i] == row.address;
          assert TxRows(tx)[i] == row;
        }
        if row in TxRows(tx) { assert IsRowOf(tx, row); }
      }
    }
  }

  // ---------------------------------------------------------------- chains of spends

  /** One in-window transaction other than the origin moves value from `a` to `b`. */
  ghost predicate Moves(w: World, a: Address, b: Address) {
    exists tx :: tx in w.ledger && Follows(w, tx, {a}) && Pays(tx, b)
  }

  /** A chain of `n` such moves leads from a recipient of the origin transaction to `a`. */
  ghost predicate Reached(w: World, n: nat, a: Address) {
    if n == 0 then a in Recipients(w)
    else exists b :: Reached(w, n - 1, b) && Moves(w, b, a)
  }

  /** A chain of `n` moves leads back to the origin. */
  ghost predicate Closes(w: World, n: nat) {
    exists o :: o in OriginAddresses(w) && Reached(w, n, o)
  }

  /** `a` spends into the closing transaction after `n` more moves. */
  ghost predicate LeadsTo(w: World, n: nat, a: Address, closing: TxHash) {
    if n == 0 then exists tx :: tx in w.ledger && tx.hash == closing && Follows(w, tx, {a})
    else exists b :: Moves(w, a, b) && LeadsTo(w, n - 1, b, closing)
  }

  lemma RowsMove(w: World, frontier: set<Address>, row: Row) returns (a: Address, tx: Tx)
    requires row in Answer(w, frontier)
    ensures a in frontier && Moves(w, a, row.address)
    ensures tx in w.ledger && tx.hash == row.tx && Follows(w, tx, {a}) && Follows(w, tx, frontier)
            && Pays(tx, row.address)
  {
    assert row in HopRows(w, w.ledger, frontier);
    HopRowsMeaning(w, w.ledger, frontier, row);
    tx :| tx in w.ledger && Follows(w, tx, frontier) && IsRowOf(tx, row);
    a :| a in tx.spends * frontier;
    assert a in tx.spends * {a};
  }

  lemma MovesMakeRows(w: World, frontier: set<Address>, a: Address, b: Address) returns (row: Row)
    requires a in frontier && Moves(w, a, b)
    ensures row in HopRows(w, w.ledger, frontier) && row.address == b
  {
    var tx :| tx in w.ledger && Follows(w, tx, {a}) && Pays(tx, b);
    assert a in tx.spends by { var x :| x in tx.spends * {a}; }
    assert a in tx.spends * frontier;
    row := Row(tx.hash, b, PaidTo(tx.outputs, b), tx.slot.value);
    HopRowsMeaning(w, w.ledger, frontier, row);
  }

  // ---------------------------------------------------------------- chains, spelled out

  /** The transaction is in the ledger, is not the origin, and has a slot no earlier than the origin's and at most the
      age bound later. */
  ghost predicate InWindow(w: World, origin: Tx, tx: Tx) {
    var from := if origin.slot.Some? then origin.slot.value else 0;
    tx in w.ledger && tx.hash != origin.hash && tx.slot.Some? && from <= tx.slot.value <= from + w.maxAge
  }

  /** Transaction `i` spends an address that the one before it pays, the origin's change excepted. */
  ghost predicate Linked(origin: Tx, txs: seq<Tx>, i: nat)
    requires 0 < i < |txs|
  {
    exists a :: a in txs[i].spends && Pays(txs[i - 1], a) && (i == 1 ==> a !in origin.spends)
  }

  /** `txs` starts at the origin, goes on in the window, each transaction spending what the one before pays, and the
      last pays `a`. */
  ghost predicate ChainTo(w: World, origin: Tx, txs: seq<Tx>, a: Address) {
    && txs != [] && txs[0] == origin && Pays(txs[|txs| - 1], a) && (|txs| == 1 ==> a !in origin.spends)
    && forall i :: 0 < i < |txs| ==> InWindow(w, origin, txs[i]) && Linked(origin, txs, i)
  }

  lemma {:induction false} FindFinds(ledger: seq<Tx>, tx: Tx)
    requires DistinctHashes(ledger) && tx in ledger
    ensures Find(ledger, tx.hash) == Some(tx)
  {
    if ledger[0].hash == tx.hash {
      SameHash(ledger, ledger[0], tx);
    } else {
      assert ledger == [ledger[0]] + ledger[1..];
      FindFinds(ledger[1..], tx);
    }
  }

  lemma FollowsIsInWindow(w: World, origin: Tx, tx: Tx, a: Address)
    requires DistinctHashes(w.ledger) && origin in w.ledger && origin.hash == w.origin && tx in w.ledger
    ensures Follows(w, tx, {a}) <==> InWindow(w, origin, tx) && a in tx.spends
  {
    FindFinds(w.ledger, origin);
    if a in tx.spends { assert a in tx.spends * {a}; }
  }

  lemma RecipientsArePaid(w: World, origin: Tx, a: Address)
    requires DistinctHashes(w.ledger) && origin in w.ledger && origin.hash == w.origin
    ensures a in Recipients(w) <==> Pays(origin, a) && a !in origin.spends
    ensures OriginAddresses(w) == origin.spends
  {
    FindFinds(w.ledger, origin);
  }

  lemma LinksExtend(w: World, origin: Tx, txs: seq<Tx>, b: Address, tx: Tx, a: Address)
    requires ChainTo(w, origin, txs, b) && InWindow(w, origin, tx) && b in tx.spends && Pays(tx, a)
    ensures ChainTo(w, origin, txs + [tx], a)
  {
    hide Pays, InWindow;
    var more := txs + [tx];
    forall i | 0 < i < |more| ensures InWindow(w, origin, more[i]) && Linked(origin, more, i) {
      if i < |txs| {
        assert InWindow(w, origin, txs[i]) && Linked(origin, txs, i);
        var x :| x in txs[i].spends && Pays(txs[i - 1], x) && (i == 1 ==> x !in origin.spends);
        assert x in more[i].spends && Pays(more[i - 1], x);
      } else {
        assert b in more[i].spends && Pays(more[i - 1], b);
      }
    }
  }

  lemma LinksShrink(w: World, origin: Tx, txs: seq<Tx>, a: Address) returns (b: Address)
    requires ChainTo(w, origin, txs, a) && |txs| > 1
    ensures ChainTo(w, origin, txs[..|txs| - 1], b) && b in txs[|txs| - 1].spends
  {
    hide Pays, InWindow;
    var n := |txs| - 1;
    var p := txs[..n];
    assert Linked(origin, txs, n);
    b :| b in txs[n].spends && Pays(txs[n - 1], b) && (n == 1 ==> b !in origin.spends);
    forall i | 0 < i < |p| ensures InWindow(w, origin, p[i]) && Linked(origin, p, i) {
      assert InWindow(w, origin, txs[i]) && Linked(origin, txs, i);
      var x :| x in txs[i].spends && Pays(txs[i - 1], x) && (i == 1 ==> x !in origin.spends);
      assert x in p[i].spends && Pays(p[i - 1], x);
    }
  }

  /** What the search calls reached is what such a chain of transactions leads to. */
  lemma {:induction false} ReachedIsChain(w: World, origin: Tx, n: nat, a: Address)
    requires DistinctHashes(w.ledger) && origin in w.ledger && origin.hash == w.origin
    ensures Reached(w, n, a) <==> exists txs :: |txs| == n + 1 && ChainTo(w, origin, txs, a)
    decreases n
  {
    hide DistinctHashes, Follows, InWindow, Recipients;
    if n == 0 {
      RecipientsArePaid(w, origin, a);
      if Reached(w, n, a) { assert ChainTo(w, origin, [origin], a); }
    } else {
      if Reached(w, n, a) {
        var b := LastMove(w, n, a);
        ReachedIsChain(w, origin, n - 1, b);
        var txs :| |txs| == n && ChainTo(w, origin, txs, b);
        var tx :| tx in w.ledger && Follows(w, tx, {b}) && Pays(tx, a);
        FollowsIsInWindow(w, origin, tx, b);
        LinksExtend(w, origin, txs, b, tx, a);
        assert |txs + [tx]| == n + 1;
      }
      if txs :| |txs| == n + 1 && ChainTo(w, origin, txs, a) { ChainReaches(w, origin, n, txs, a); }
    }
  }

  lemma ChainReaches(w: World, origin: Tx, n: nat, txs: seq<Tx>, a: Address)
    requires DistinctHashes(w.ledger) && origin in w.ledger && origin.hash == w.origin
    requires n > 0 && |txs| == n + 1 && ChainTo(w, origin, txs, a)
    ensures Reached(w, n, a)
    decreases n, 0
  {
    hide DistinctHashes, Follows, Recipients, Reached, Pays, Linked;
    var b := LinksShrink(w, origin, txs, a);
    assert InWindow(w, origin, txs[n]) && Pays(txs[n], a);
    FollowsIsInWindow(w, origin, txs[n], b);
    assert Moves(w, b, a);
    hide ChainTo, InWindow, Moves;
    ReachedIsChain(w, origin, n - 1, b);
    assert |txs[..n]| == n - 1 + 1;
    ReachedByMove(w, n - 1, b, a);
  }

  /** A cycle is a chain of transactions, the origin first, whose last pays an address the origin spent from. */
  lemma ClosesIsChain(w: World, origin: Tx, n: nat)
    requires DistinctHashes(w.ledger) && origin in w.ledger && origin.hash == w.origin
    ensures Closes(w, n) <==> exists txs, a :: |txs| == n + 1 && a in origin.spends && ChainTo(w, origin, txs, a)
  {
    hide DistinctHashes, ChainTo, Reached;
    FindFinds(w.ledger, origin);
    if Closes(w, n) {
      var o :| o in OriginAddresses(w) && Reached(w, n, o);
      ReachedIsChain(w, origin, n, o);
    }
    if txs, a :| |txs| == n + 1 && a in origin.spends && ChainTo(w, origin, txs, a) {
      ReachedIsChain(w, origin, n, a);
    }
  }

  // ---------------------------------------------------------------- the order of the hop query's answer

  predicate Before(a: Row, b: Row) {
    || a.slot < b.slot
    || (a.slot == b.slot && a.tx.rank < b.tx.rank)
    || (a.slot == b.slot && a.tx.rank == b.tx.rank && a.address.rank < b.address.rank)
  }

  predicate Earlier(a: Tx, b: Tx) {
    a.slot.Some? && b.slot.Some? ==>
      a.slot.value < b.slot.value || (a.slot.value == b.slot.value && a.hash.rank < b.hash.rank)
  }

  /** The ledger is listed by slot, then hash. */
  ghost predicate Listed(txs: seq<Tx>) {
    forall i, j :: 0 <= i < j < |txs| ==> Earlier(txs[i], txs[j])
  }

  ghost predicate InOrder(rows: seq<Row>) {
    forall i, j :: 0 <= i < j < |rows| ==> Before(rows[i], rows[j])
  }

  ghost predicate Ranked(payees: seq<Address>) {
    forall i, j :: 0 <= i < j < |payees| ==> payees[i].rank < payees[j].rank
  }

  lemma {:induction false} InsertPayeeRanked(payees: seq<Address>, a: Address)
    requires Ranked(payees)
    ensures Ranked(InsertPayee(payees, a))
  {
    if payees != [] && a.rank > payees[0].rank {
      InsertPayeeRanked(payees[1..], a);
      InsertPayeeKeeps(payees[1..], a);
      var rest := InsertPayee(payees[1..], a);
      forall x | x in rest ensures payees[0].rank < x.rank { assert x in payees[1..] || x == a; }
      assert InsertPayee(payees, a)[1..] == rest;
    }
  }

  lemma {:induction false} PayeesRanked(outputs: seq<Output>)
    ensures Ranked(Payees(outputs))
  {
    if outputs != [] {
      PayeesRanked(outputs[1..]);
      InsertPayeeRanked(Payees(outputs[1..]), outputs[0].address);
    }
  }

  lemma {:induction false} HopRowsInOrder(w: World, txs: seq<Tx>, frontier: set<Address>)
    requires Listed(txs)
    ensures InOrder(HopRows(w, txs, frontier))
  {
    if txs != [] {
      hide Pays, PaidTo, Payees;
      var rest := HopRows(w, txs[1..], frontier);
      HopRowsInOrder(w, txs[1..], frontier);
      if Follows(w, txs[0], frontier) {
        PayeesRanked(txs[0].outputs);
        forall r, s | r in TxRows(txs[0]) && s in rest ensures Before(r, s) {
          HopRowsMeaning(w, txs[1..], frontier, s);
          var tx :| tx in txs[1..] && Follows(w, tx, frontier) && IsRowOf(tx, s);
          assert Earlier(txs[0], tx);
        }
        RowsJoinInOrder(TxRows(txs[0]), rest);
      } else {
        assert [] + rest == rest;
      }
    }
  }

  lemma RowsJoinInOrder(a: seq<Row>, b: seq<Row>)
    requires InOrder(a) && InOrder(b) && forall r, s :: r in a && s in b ==> Before(r, s)
    ensures InOrder(a + b)
  {}

  /** The answer lists rows by slot, hash and address; a row it leaves out comes after all of them, and then there are
      as many as the limit allows. */
  lemma AnswerIsFirstRows(w: World, frontier: set<Address>, row: Row)
    requires Listed(w.ledger)
    ensures InOrder(Answer(w, frontier)) && |Answer(w, frontier)| <= w.rowLimit
    ensures row in HopRows(w, w.ledger, frontier) && row !in Answer(w, frontier) ==>
              |Answer(w, frontier)| == w.rowLimit && forall r :: r in Answer(w, frontier) ==> Before(r, row)
  {
    hide Listed, HopRows;
    HopRowsInOrder(w, w.ledger, frontier);
  }

  // ---------------------------------------------------------------- what a search has seen

  function PayeesOf(rows: seq<Row>): set<Address> {
    set r | r in rows :: r.address
  }

  /** Every address seen once the frontiers `q` have been expanded. */
  function Seen(w: World, q: seq<set<Address>>): set<Address> {
    if q == [] then OriginAddresses(w) + Recipients(w)
    else Seen(w, q[..|q| - 1]) + PayeesOf(Answer(w, q[|q| - 1]))
  }

  /** The addresses the last expansion was the first to reach. */
  function Fresh(w: World, q: seq<set<Address>>): set<Address> {
    if q == [] then Recipients(w) else Seen(w, q) - Seen(w, q[..|q| - 1])
  }

  /** `f` holds the first `cap` addresses of `all` in address order. */
  ghost predicate IsFrontier(all: set<Address>, cap: nat, f: set<Address>) {
    && f <= all
    && |f| == (if |all| <= cap then |all| else cap)
    && forall a, b :: a in f && b in all - f ==> a.rank < b.rank
  }

  ghost predicate PaysOrigin(w: World, rows: seq<Row>) {
    exists r :: r in rows && r.address in OriginAddresses(w)
  }

  ghost predicate FrontierAt(w: World, q: seq<set<Address>>, i: nat)
    requires i < |q|
  {
    IsFrontier(Fresh(w, q[..i]), w.maxFanout, q[i])
  }

  /** The frontiers of a search: each the cut of what the one before first reached. */
  ghost predicate Frontiers(w: World, q: seq<set<Address>>) {
    forall i :: 0 <= i < |q| ==> FrontierAt(w, q, i)
  }

  ghost predicate OpenAt(w: World, q: seq<set<Address>>, i: nat)
    requires i < |q|
  {
    !PaysOrigin(w, Answer(w, q[i]))
  }

  /** No expansion of `q` pays the origin. */
  ghost predicate Open(w: World, q: seq<set<Address>>) {
    forall i :: 0 <= i < |q| ==> OpenAt(w, q, i)
  }

  /** `h` is the transaction of the first row that pays `a`. */
  ghost predicate FirstPayer(rows: seq<Row>, a: Address, h: TxHash) {
    exists j ::
      0 <= j < |rows| && rows[j].address == a && rows[j].tx == h && forall i :: 0 <= i < j ==> rows[i].address != a
  }

  /** `creator` names, for every address reached, the transaction that first paid it. */
  ghost predicate Attributed(w: World, q: seq<set<Address>>, creator: map<Address, TxHash>) {
    && (forall a :: a in Recipients(w) ==> a in creator && creator[a] == w.origin)
    && forall i :: 0 <= i < |q| ==> AttributedAt(w, q, creator, i)
  }

  ghost predicate AttributedAt(w: World, q: seq<set<Address>>, creator: map<Address, TxHash>, i: nat)
    requires i < |q|
  {
    forall a :: a in Fresh(w, q[..i + 1]) ==> a in creator && FirstPayer(Answer(w, q[i]), a, creator[a])
  }

  function NewlyPaid(rows: seq<Row>, seen: set<Address>): nat {
    if rows == [] then 0
    else NewlyPaid(rows[..|rows| - 1], seen) + if rows[|rows| - 1].address in seen then 0 else rows[|rows| - 1].paid
  }

  function AmountLeaving(outputs: seq<Output>, own: set<Address>): nat {
    if outputs == [] then 0
    else AmountLeaving(outputs[..|outputs| - 1], own) + var o := outputs[|outputs| - 1];
        if o.address in own then 0 else o.amount
  }

  /** The amounts paid to the addresses of `own`. */
  function OutputsTo(outputs: seq<Output>, own: set<Address>): seq<nat> {
    if outputs == [] then []
    else OutputsTo(outputs[..|outputs| - 1], own)
         + var o := outputs[|outputs| - 1]; if o.address in own then [o.amount] else []
  }

  /** The amount each step passed on: out of the origin first, then to the addresses each expansion first reached. */
  function HopAmounts(w: World, q: seq<set<Address>>): seq<nat> {
    if q == [] then [AmountLeaving(OriginOutputs(w), OriginAddresses(w))]
    else HopAmounts(w, q[..|q| - 1]) + [NewlyPaid(Answer(w, q[|q| - 1]), Seen(w, q[..|q| - 1]))]
  }

  // ---------------------------------------------------------------- amounts, read off the outputs

  function Amounts(os: seq<Output>): (r: seq<nat>)
    ensures |r| == |os| && forall i :: 0 <= i < |os| ==> r[i] == os[i].amount
  {
    seq(|os|, i requires 0 <= i < |os| => os[i].amount)
  }

  /** What the outputs pay together. */
  function Total(os: seq<Output>): nat {
    ClosingReading.Sum(Amounts(os))
  }

  /** `inside` are the outputs to addresses of `own`, `outside` the others, each output being one of the two once. */
  ghost predicate Divided(os: seq<Output>, own: set<Address>, inside: seq<Output>, outside: seq<Output>) {
    && multiset(os) == multiset(inside) + multiset(outside)
    && (forall o :: o in inside ==> o.address in own) && (forall o :: o in outside ==> o.address !in own)
  }

  /** `paid` is what the outputs outside `own` add up to, and `back` what the others do. */
  ghost predicate PaidAway(os: seq<Output>, own: set<Address>, paid: nat) {
    exists inside, outside :: Divided(os, own, inside, outside) && paid == Total(outside)
  }

  ghost predicate PaidBack(os: seq<Output>, own: set<Address>, back: seq<nat>) {
    exists inside, outside :: Divided(os, own, inside, outside) && back == Amounts(inside)
  }

  lemma TotalNext(os: seq<Output>, o: Output)
    ensures Amounts(os + [o]) == Amounts(os) + [o.amount] && Total(os + [o]) == Total(os) + o.amount
  {
    assert Amounts(os + [o]) == Amounts(os) + [o.amount];
    assert (Amounts(os) + [o.amount])[..|os|] == Amounts(os);
  }

  lemma DividedNext(os: seq<Output>, own: set<Address>, inside: seq<Output>, outside: seq<Output>, o: Output)
    requires Divided(os, own, inside, outside)
    ensures if o.address in own then Divided(os + [o], own, inside + [o], outside)
            else Divided(os + [o], own, inside, outside + [o])
  {}

  /** Every list of outputs divides, and the amounts of the two parts are these. */
  lemma {:induction false} Division(os: seq<Output>, own: set<Address>)
    returns (inside: seq<Output>, outside: seq<Output>)
    ensures Divided(os, own, inside, outside)
    ensures AmountLeaving(os, own) == Total(outside) && OutputsTo(os, own) == Amounts(inside)
  {
    inside, outside := [], [];
    if os != [] {
      var p, o := os[..|os| - 1], os[|os| - 1];
      inside, outside := Division(p, own);
      assert os == p + [o];
      DividedNext(p, own, inside, outside, o);
      if o.address in own { TotalNext(inside, o); inside := inside + [o]; }
      else { TotalNext(outside, o); outside := outside + [o]; }
    }
  }

  lemma TotalOne(os: seq<Output>, i: nat)
    requires i < |os|
    ensures Total(os) == Total(os[..i] + os[i + 1..]) + os[i].amount
    decreases |os|
  {
    var n := |os| - 1;
    var p, o := os[..n], os[n];
    assert os == p + [o];
    TotalNext(p, o);
    if i < n {
      TotalOne(p, i);
      TotalNext(p[..i] + p[i + 1..], o);
      assert os[..i] + os[i + 1..] == (p[..i] + p[i + 1..]) + [o];
    } else {
      assert os[..i] + os[i + 1..] == p;
    }
  }

  lemma WithoutOne(a: seq<Output>, b: seq<Output>, p: seq<Output>, o: Output) returns (i: nat)
    requires multiset(a) == multiset(b) && a == p + [o]
    ensures i < |b| && b[i] == o && multiset(p) == multiset(b[..i] + b[i + 1..])
  {
    assert o in multiset(b);
    i :| 0 <= i < |b| && b[i] == o;
    assert b == b[..i] + [o] + b[i + 1..];
    assert multiset(b) == multiset(b[..i] + b[i + 1..]) + multiset{o};
    assert multiset(a) == multiset(p) + multiset{o};
    assert multiset(p) == multiset(a) - multiset{o};
  }

  lemma {:induction false} SameTotal(a: seq<Output>, b: seq<Output>)
    requires multiset(a) == multiset(b)
    ensures Total(a) == Total(b)
    decreases |a|
  {
    if a == [] {
      assert |multiset(b)| == |multiset(a)| == 0;
    } else {
      hide Total;
      var n := |a| - 1;
      assert a == a[..n] + [a[n]];
      var i := WithoutOne(a, b, a[..n], a[n]);
      TotalNext(a[..n], a[n]);
      TotalOne(b, i);
      SameTotal(a[..n], b[..i] + b[i + 1..]);
    }
  }

  lemma {:induction false} TotalJoins(a: seq<Output>, b: seq<Output>)
    ensures Total(a + b) == Total(a) + Total(b)
  {
    if b == [] {
      assert a + b == a;
    } else {
      var p, o := b[..|b| - 1], b[|b| - 1];
      TotalJoins(a, p);
      assert a + b == (a + p) + [o] && b == p + [o];
      TotalNext(a + p, o);
      TotalNext(p, o);
    }
  }

  /** However the outputs are divided, what leaves and what comes back to `own` is all that was paid. */
  lemma LeavingAndChange(os: seq<Output>, own: set<Address>, inside: seq<Output>, outside: seq<Output>)
    requires Divided(os, own, inside, outside)
    ensures AmountLeaving(os, own) == Total(outside) && Total(inside) + Total(outside) == Total(os)
  {
    hide AmountLeaving, Total;
    var back, away := Division(os, own);
    forall o: Output ensures multiset(away)[o] == multiset(outside)[o] {
      assert multiset(os)[o] == multiset(inside)[o] + multiset(outside)[o] == multiset(back)[o] + multiset(away)[o];
      assert multiset(inside)[o] > 0 ==> o in inside;
      assert multiset(outside)[o] > 0 ==> o in outside;
      assert multiset(back)[o] > 0 ==> o in back;
      assert multiset(away)[o] > 0 ==> o in away;
    }
    SameTotal(away, outside);
    SameTotal(os, inside + outside);
    TotalJoins(inside, outside);
  }

  lemma DividedFirst(os: seq<Output>, own: set<Address>, inside: seq<Output>, outside: seq<Output>)
    requires os != [] && Divided(os[1..], own, inside, outside)
    ensures if os[0].address in own then Divided(os, own, inside + [os[0]], outside)
            else Divided(os, own, inside, outside + [os[0]])
  {
    assert os == [os[0]] + os[1..];
  }

  /** A row pays its address the sum of the transaction's outputs there. */
  lemma {:induction false} PaidToAddsUp(os: seq<Output>, a: Address)
    returns (inside: seq<Output>, outside: seq<Output>)
    ensures Divided(os, {a}, inside, outside) && PaidTo(os, a) == Total(inside)
  {
    inside, outside := [], [];
    if os != [] {
      hide Total, Divided;
      inside, outside := PaidToAddsUp(os[1..], a);
      DividedFirst(os, {a}, inside, outside);
      TotalNext(inside, os[0]);
      if os[0].address == a { inside := inside + [os[0]]; } else { outside := outside + [os[0]]; }
    }
  }

  /** The rows of a hop as payments. */
  function Payments(rows: seq<Row>): (os: seq<Output>)
    ensures |os| == |rows| && forall i :: 0 <= i < |rows| ==> os[i] == Output(rows[i].address, rows[i].paid)
  {
    seq(|rows|, i requires 0 <= i < |rows| => Output(rows[i].address, rows[i].paid))
  }

  lemma {:induction false} NewlyPaidLeaves(rows: seq<Row>, seen: set<Address>)
    ensures NewlyPaid(rows, seen) == AmountLeaving(Payments(rows), seen)
  {
    if rows != [] {
      var p, r := rows[..|rows| - 1], rows[|rows| - 1];
      NewlyPaidLeaves(p, seen);
      assert Payments(rows)[..|p|] == Payments(p);
    }
  }

  /** `amounts` are what the origin transaction paid to others, then what each expansion paid to addresses not seen
      before it. */
  ghost predicate HopsPay(w: World, q: seq<set<Address>>, amounts: seq<nat>) {
    && |amounts| == |q| + 1
    && PaidAway(OriginOutputs(w), OriginAddresses(w), amounts[0])
    && forall i :: 0 <= i < |q| ==> HopPays(w, q, amounts, i)
  }

  ghost predicate HopPays(w: World, q: seq<set<Address>>, amounts: seq<nat>, i: nat)
    requires i < |q| < |amounts|
  {
    PaidAway(Payments(Answer(w, q[i])), Seen(w, q[..i]), amounts[i + 1])
  }

  lemma LeavingIsPaidAway(os: seq<Output>, own: set<Address>)
    ensures PaidAway(os, own, AmountLeaving(os, own))
  {
    var inside, outside := Division(os, own);
  }

  lemma {:induction false} HopAmountsPay(w: World, q: seq<set<Address>>)
    ensures HopsPay(w, q, HopAmounts(w, q))
  {
    hide AmountLeaving, PaidAway, NewlyPaid, Answer, Seen, OriginOutputs, OriginAddresses;
    if q == [] {
      LeavingIsPaidAway(OriginOutputs(w), OriginAddresses(w));
    } else {
      var p, f := q[..|q| - 1], q[|q| - 1];
      HopAmountsPay(w, p);
      LeavingIsPaidAway(Payments(Answer(w, f)), Seen(w, p));
      NewlyPaidLeaves(Answer(w, f), Seen(w, p));
      forall i | 0 <= i < |q| ensures HopPays(w, q, HopAmounts(w, q), i) {
        if i < |p| { assert HopPays(w, p, HopAmounts(w, p), i) && p[..i] == q[..i]; }
      }
    }
  }

  // ---------------------------------------------------------------- soundness, whatever the caps

  lemma {:induction false} SeenGrows(w: World, q: seq<set<Address>>, i: nat)
    requires i <= |q|
    ensures Seen(w, q[..i]) <= Seen(w, q)
    ensures OriginAddresses(w) + Recipients(w) <= Seen(w, q)
    decreases |q|
  {
    if i == |q| { assert q[..i] == q; }
    if q != [] {
      assert i < |q| ==> q[..|q| - 1][..i] == q[..i];
      SeenGrows(w, q[..|q| - 1], if i < |q| then i else 0);
    }
  }

  lemma {:induction false} SeenIsFreshOrOrigin(w: World, q: seq<set<Address>>, a: Address) returns (i: nat)
    requires a in Seen(w, q) && a !in OriginAddresses(w)
    ensures i <= |q| && a in Fresh(w, q[..i])
    decreases |q|
  {
    if q == [] {
      i := 0;
      assert q[..0] == q;
    } else if a in Seen(w, q[..|q| - 1]) {
      i := SeenIsFreshOrOrigin(w, q[..|q| - 1], a);
      assert q[..|q| - 1][..i] == q[..i];
    } else {
      i := |q|;
      assert q[..|q|] == q;
    }
  }

  lemma SeenPrefixGrows(w: World, q: seq<set<Address>>, i: nat, n: nat)
    requires i <= n <= |q|
    ensures forall a :: SeenAt(w, q, i, a) ==> SeenAt(w, q, n, a)
  {
    assert q[..n][..i] == q[..i];
    SeenGrows(w, q[..n], i);
  }

  /** `a` has been seen once the first `n` frontiers are expanded. */
  ghost predicate SeenAt(w: World, q: seq<set<Address>>, n: nat, a: Address)
    requires n <= |q|
  {
    a in Seen(w, q[..n])
  }

  lemma FreshStep(w: World, q: seq<set<Address>>, n: nat, a: Address) returns (i: nat)
    requires n <= |q| && SeenAt(w, q, n, a) && a !in OriginAddresses(w)
    ensures i <= n && a in Fresh(w, q[..i])
  {
    i := SeenIsFreshOrOrigin(w, q[..n], a);
    assert q[..n][..i] == q[..i];
  }

  /** Frontiers hold no origin address, never overlap, and each address was first reached by its own step. */
  lemma FreshDisjoint(w: World, q: seq<set<Address>>, i: nat, j: nat)
    requires i < j <= |q|
    ensures Fresh(w, q[..i]) !! Fresh(w, q[..j])
    ensures Fresh(w, q[..i]) !! OriginAddresses(w)
  {
    hide Seen, OriginAddresses, Recipients, Answer, PayeesOf;
    assert q[..j][..j - 1] == q[..j - 1];
    assert q[..j - 1][..i] == q[..i];
    SeenGrows(w, q[..j - 1], i);
    FreshInSeen(w, q[..i]);
  }

  lemma FreshInSeen(w: World, q: seq<set<Address>>)
    ensures Fresh(w, q) <= Seen(w, q) && Fresh(w, q) !! OriginAddresses(w)
  {
    if q != [] { SeenGrows(w, q[..|q| - 1], |q| - 1); }
  }

  lemma FrontiersPrefix(w: World, q: seq<set<Address>>, n: nat)
    requires n <= |q| && Frontiers(w, q)
    ensures Frontiers(w, q[..n])
  {
    forall i | 0 <= i < n ensures FrontierAt(w, q[..n], i) {
      assert FrontierAt(w, q, i) && q[..n][..i] == q[..i];
    }
  }

  lemma ReachedByMove(w: World, n: nat, b: Address, a: Address)
    requires Reached(w, n, b) && Moves(w, b, a)
    ensures Reached(w, n + 1, a)
  {}

  lemma LastMove(w: World, n: nat, a: Address) returns (b: Address)
    requires n > 0 && Reached(w, n, a)
    ensures Reached(w, n - 1, b) && Moves(w, b, a)
  {
    b :| Reached(w, n - 1, b) && Moves(w, b, a);
  }

  lemma FreshStepBack(w: World, q: seq<set<Address>>, a: Address) returns (b: Address)
    requires q != [] && Frontiers(w, q) && a in Fresh(w, q)
    ensures b in Fresh(w, q[..|q| - 1]) && Moves(w, b, a)
  {
    var n := |q| - 1;
    var row :| row in Answer(w, q[n]) && row.address == a;
    var tx;
    b, tx := RowsMove(w, q[n], row);
    assert FrontierAt(w, q, n);
  }

  /** A first-reached address is at the end of a chain as long as the number of expansions. */
  lemma {:induction false} FreshIsReached(w: World, q: seq<set<Address>>, a: Address)
    requires Frontiers(w, q) && a in Fresh(w, q)
    ensures Reached(w, |q|, a)
    decreases |q|
  {
    if q != [] {
      var p := q[..|q| - 1];
      var b := FreshStepBack(w, q, a);
      FrontiersPrefix(w, q, |p|);
      FreshIsReached(w, p, b);
      ReachedByMove(w, |p|, b, a);
    }
  }

  /** A row paying the origin closes a chain one longer than the frontiers before it. */
  lemma RowCloses(w: World, q: seq<set<Address>>, row: Row)
    requires q != [] && Frontiers(w, q) && row in Answer(w, q[|q| - 1]) && row.address in OriginAddresses(w)
    ensures Closes(w, |q|)
  {
    var n := |q| - 1;
    var b, _ := RowsMove(w, q[n], row);
    FrontiersPrefix(w, q, n);
    assert FrontierAt(w, q, n);
    FreshIsReached(w, q[..n], b);
    assert Reached(w, |q|, row.address);
  }

  // ---------------------------------------------------------------- completeness and minimality

  /** Neither the frontier cap nor the row limit cuts anything off the search along `q`. */
  ghost predicate Uncut(w: World, q: seq<set<Address>>) {
    forall i :: 0 <= i < |q| ==> UncutAt(w, q, i)
  }

  ghost predicate UncutAt(w: World, q: seq<set<Address>>, i: nat)
    requires i < |q|
  {
    |Fresh(w, q[..i])| <= w.maxFanout && |HopRows(w, w.ledger, q[i])| <= w.rowLimit
  }

  lemma UncutFrontier(w: World, q: seq<set<Address>>, i: nat)
    requires i < |q| && Frontiers(w, q) && Uncut(w, q)
    ensures q[i] == Fresh(w, q[..i]) && Answer(w, q[i]) == HopRows(w, w.ledger, q[i])
  {
    assert FrontierAt(w, q, i) && UncutAt(w, q, i);
    SubsetSameSize(q[i], Fresh(w, q[..i]));
  }

  lemma SubsetSameSize<T>(a: set<T>, b: set<T>)
    requires a <= b && |a| == |b|
    ensures a == b
  {
    assert |b - a| == |b| - |a|;
  }

  /** Whatever a first-reached address moves to has been seen once its frontier is expanded. */
  lemma ExpansionSees(w: World, q: seq<set<Address>>, i: nat, b: Address, a: Address)
    requires i < |q| && Frontiers(w, q) && Uncut(w, q) && Open(w, q)
    requires b in Fresh(w, q[..i]) && Moves(w, b, a)
    ensures SeenAt(w, q, i + 1, a) && a !in OriginAddresses(w)
  {
    UncutFrontier(w, q, i);
    var row := MovesMakeRows(w, q[i], b, a);
    assert OpenAt(w, q, i);
    assert row in Answer(w, q[i]);
    assert q[..i + 1][..i] == q[..i];
  }

  lemma RecipientSeen(w: World, q: seq<set<Address>>, a: Address)
    requires Reached(w, 0, a)
    ensures SeenAt(w, q, 0, a) && a !in OriginAddresses(w)
  {
    assert q[..0] == [];
  }

  lemma MoveIsSeen(w: World, q: seq<set<Address>>, n: nat, b: Address, m: nat, a: Address)
    requires n < m <= |q| && Frontiers(w, q) && Uncut(w, q) && Open(w, q)
    requires SeenAt(w, q, n, b) && b !in OriginAddresses(w) && Moves(w, b, a)
    ensures SeenAt(w, q, m, a) && a !in OriginAddresses(w)
  {
    hide Frontiers, Open, Uncut, Moves, OriginAddresses;
    var i := FreshStep(w, q, n, b);
    ExpansionSees(w, q, i, b, a);
    SeenPrefixGrows(w, q, i + 1, m);
  }

  /** An open, uncut search has seen every address within its reach, and no chain that short closes. */
  lemma {:induction false} OpenSearchSeesAll(w: World, q: seq<set<Address>>, n: nat, a: Address)
    requires Frontiers(w, q) && Uncut(w, q) && Open(w, q) && n <= |q| && Reached(w, n, a)
    ensures SeenAt(w, q, n, a) && a !in OriginAddresses(w)
    decreases n
  {
    hide Frontiers, Open, Uncut, Reached, SeenAt, Moves;
    if n == 0 {
      RecipientSeen(w, q, a);
    } else {
      var b := LastMove(w, n, a);
      OpenSearchSeesAll(w, q, n - 1, b);
      MoveIsSeen(w, q, n - 1, b, n, a);
    }
  }

  lemma OpenSearchHasNoCycle(w: World, q: seq<set<Address>>, n: nat)
    requires Frontiers(w, q) && Uncut(w, q) && Open(w, q) && n <= |q|
    ensures !Closes(w, n)
  {
    if Closes(w, n) {
      var o :| o in OriginAddresses(w) && Reached(w, n, o);
      OpenSearchSeesAll(w, q, n, o);
    }
  }

  /** Once an expansion reaches nothing new, nothing further is ever reached. */
  lemma {:induction false} ExhaustedSearchSeesAll(w: World, q: seq<set<Address>>, n: nat, a: Address)
    requires Frontiers(w, q) && Uncut(w, q) && Open(w, q) && Fresh(w, q) == {} && Reached(w, n, a)
    ensures a in Seen(w, q) && a !in OriginAddresses(w)
    decreases n
  {
    if n == 0 {
      SeenGrows(w, q, 0);
      FreshInSeen(w, []);
    } else {
      var b := LastMove(w, n, a);
      ExhaustedSearchSeesAll(w, q, n - 1, b);
      var i := SeenIsFreshOrOrigin(w, q, b);
      assert q[..|q|] == q;
      ExpansionSees(w, q, i, b, a);
      SeenGrows(w, q, i + 1);
    }
  }

  lemma ExhaustedSearchHasNoCycle(w: World, q: seq<set<Address>>, n: nat)
    requires Frontiers(w, q) && Uncut(w, q) && Open(w, q) && Fresh(w, q) == {}
    ensures !Closes(w, n)
  {
    if Closes(w, n) {
      var o :| o in OriginAddresses(w) && Reached(w, n, o);
      ExhaustedSearchSeesAll(w, q, n, o);
    }
  }

  // ---------------------------------------------------------------- when no cap binds

  /** The frontiers of the search with no cap at all. */
  ghost function Layers(w: World, k: nat): seq<set<Address>> {
    if k == 0 then [] else Layers(w, k - 1) + [Fresh(w, Layers(w, k - 1))]
  }

  ghost predicate LayerFits(w: World, k: nat) {
    var layer := Fresh(w, Layers(w, k));
    |layer| <= w.maxFanout && |HopRows(w, w.ledger, layer)| <= w.rowLimit
  }

  /** No cap binds before the search finds a cycle or spends its hops. */
  ghost predicate NoCapBinds(w: World, hops: nat) {
    && |Recipients(w)| <= w.maxOutputFanout
    && forall k: nat :: k < hops && Open(w, Layers(w, k)) ==> LayerFits(w, k)
  }

  function PaidAddresses(txs: seq<Tx>): set<Address> {
    set tx, o | tx in txs && o in tx.outputs :: o.address
  }

  function OutputCount(txs: seq<Tx>): nat {
    if txs == [] then 0 else |txs[0].outputs| + OutputCount(txs[1..])
  }

  lemma {:induction false} FewPayees(outputs: seq<Output>)
    ensures |Payees(outputs)| <= |outputs|
  {
    if outputs != [] {
      FewPayees(outputs[1..]);
      OneMorePayee(Payees(outputs[1..]), outputs[0].address);
    }
  }

  lemma {:induction false} OneMorePayee(payees: seq<Address>, a: Address)
    ensures |InsertPayee(payees, a)| <= |payees| + 1
  {
    if payees != [] { OneMorePayee(payees[1..], a); }
  }

  lemma {:induction false} FewRows(w: World, txs: seq<Tx>, frontier: set<Address>)
    ensures |HopRows(w, txs, frontier)| <= OutputCount(txs)
  {
    if txs != [] {
      FewRows(w, txs[1..], frontier);
      FewPayees(txs[0].outputs);
    }
  }

  lemma PaidBySomeone(w: World, q: seq<set<Address>>)
    ensures Fresh(w, q) <= PaidAddresses(w.ledger)
  {
    FoundIn(w.ledger, w.origin);
    if q != [] {
      forall a | a in PayeesOf(Answer(w, q[|q| - 1])) ensures a in PaidAddresses(w.ledger) {
        var row :| row in Answer(w, q[|q| - 1]) && row.address == a;
        var b, tx := RowsMove(w, q[|q| - 1], row);
      }
    }
  }

  /** On a ledger with few addresses and few outputs no cap binds, however many hops are allowed. */
  lemma SmallLedgerUncapped(w: World, hops: nat)
    requires |PaidAddresses(w.ledger)| <= w.maxOutputFanout && |PaidAddresses(w.ledger)| <= w.maxFanout
    requires OutputCount(w.ledger) <= w.rowLimit
    ensures NoCapBinds(w, hops)
  {
    hide Fresh, PaidAddresses, OutputCount, HopRows, Layers, Open;
    PaidBySomeone(w, []);
    assert Fresh(w, []) == Recipients(w) by { NothingFresh(w); }
    SmallerSet(Recipients(w), PaidAddresses(w.ledger));
    forall k: nat | k < hops && Open(w, Layers(w, k)) ensures LayerFits(w, k) {
      var layer := Fresh(w, Layers(w, k));
      PaidBySomeone(w, Layers(w, k));
      SmallerSet(layer, PaidAddresses(w.ledger));
      FewRows(w, w.ledger, layer);
    }
  }

  lemma NothingFresh(w: World)
    ensures Fresh(w, []) == Recipients(w)
  {}

  /** Then the capped search goes through the uncapped layers. */
  lemma {:induction false} FrontiersAreLayers(w: World, q: seq<set<Address>>, hops: nat)
    requires NoCapBinds(w, hops) && Frontiers(w, q) && |q| <= hops
    requires q != [] ==> Open(w, q[..|q| - 1])
    ensures q == Layers(w, |q|) && Uncut(w, q)
    decreases |q|
  {
    hide NoCapBinds, Frontiers, Open, UncutAt, Fresh;
    if q != [] {
      var p := q[..|q| - 1];
      FrontiersPrefix(w, q, |p|);
      if p != [] { OpenPrefix(w, p, |p| - 1); }
      FrontiersAreLayers(w, p, hops);
      NextLayer(w, q, p, hops);
    }
  }

  lemma NextLayer(w: World, q: seq<set<Address>>, p: seq<set<Address>>, hops: nat)
    requires NoCapBinds(w, hops) && Frontiers(w, q) && 0 < |q| <= hops && p == q[..|q| - 1]
    requires Open(w, p) && p == Layers(w, |p|) && Uncut(w, p)
    ensures q == Layers(w, |q|) && Uncut(w, q)
  {
    hide NoCapBinds, Frontiers, Open, Uncut, UncutAt, Fresh;
    NextFrontierUncut(w, q, p, hops);
    assert q == p + [q[|p|]];
    UncutExtends(w, p, q);
  }

  lemma NextFrontierUncut(w: World, q: seq<set<Address>>, p: seq<set<Address>>, hops: nat)
    requires NoCapBinds(w, hops) && Frontiers(w, q) && 0 < |q| <= hops && p == q[..|q| - 1]
    requires Open(w, p) && p == Layers(w, |p|)
    ensures q[|p|] == Fresh(w, p) && UncutAt(w, q, |p|)
  {
    hide NoCapBinds, Frontiers, Open, Layers, Fresh, HopRows, Recipients, Answer;
    LayerMustFit(w, |p|, hops);
    FitsUncut(w, q, p);
  }

  lemma LayerMustFit(w: World, k: nat, hops: nat)
    requires NoCapBinds(w, hops) && k < hops && Open(w, Layers(w, k))
    ensures |Fresh(w, Layers(w, k))| <= w.maxFanout && |HopRows(w, w.ledger, Fresh(w, Layers(w, k)))| <= w.rowLimit
  {
    hide Open, Layers, Fresh, HopRows, Recipients;
    assert LayerFits(w, k);
  }

  lemma FitsUncut(w: World, q: seq<set<Address>>, p: seq<set<Address>>)
    requires Frontiers(w, q) && q != [] && p == q[..|q| - 1]
    requires |Fresh(w, p)| <= w.maxFanout && |HopRows(w, w.ledger, Fresh(w, p))| <= w.rowLimit
    ensures q[|p|] == Fresh(w, p) && UncutAt(w, q, |p|)
  {
    hide Fresh, HopRows, Recipients, Answer;
    assert FrontierAt(w, q, |p|);
    SubsetSameSize(q[|p|], Fresh(w, p));
  }

  lemma UncutAtPrefix(w: World, p: seq<set<Address>>, q: seq<set<Address>>, i: nat)
    requires q != [] && p == q[..|q| - 1] && i < |p|
    ensures UncutAt(w, p, i) <==> UncutAt(w, q, i)
  {
    assert p[..i] == q[..i];
  }

  lemma UncutExtends(w: World, p: seq<set<Address>>, q: seq<set<Address>>)
    requires q != [] && p == q[..|q| - 1] && UncutAt(w, q, |p|) && Uncut(w, p)
    ensures Uncut(w, q)
  {
    hide UncutAt;
    forall i | 0 <= i < |p| ensures UncutAt(w, q, i) {
      assert UncutAt(w, p, i);
      UncutAtPrefix(w, p, q, i);
    }
  }

  lemma UncutShrinks(w: World, p: seq<set<Address>>, q: seq<set<Address>>)
    requires q != [] && p == q[..|q| - 1] && Uncut(w, q)
    ensures Uncut(w, p)
  {
    forall i | 0 <= i < |p| ensures UncutAt(w, p, i) {
      assert UncutAt(w, q, i);
      UncutAtPrefix(w, p, q, i);
    }
  }

  lemma OpenPrefix(w: World, q: seq<set<Address>>, n: nat)
    requires n <= |q| && Open(w, q)
    ensures Open(w, q[..n])
  {
    forall i | 0 <= i < n ensures OpenAt(w, q[..n], i) { assert OpenAt(w, q, i); }
  }

  /** A closing row found after an open search closes the shortest chain there is. */
  lemma ClosingIsShortest(w: World, q: seq<set<Address>>, hops: nat, n: nat)
    requires NoCapBinds(w, hops) && Frontiers(w, q) && 0 < |q| <= hops && Open(w, q[..|q| - 1]) && n < |q|
    ensures !Closes(w, n)
  {
    FrontiersAreLayers(w, q, hops);
    var p := q[..|q| - 1];
    FrontiersPrefix(w, q, |p|);
    UncutShrinks(w, p, q);
    OpenSearchHasNoCycle(w, p, n);
  }

  lemma NoCycleWithinHops(w: World, q: seq<set<Address>>, hops: nat, n: nat)
    requires NoCapBinds(w, hops) && Frontiers(w, q) && Open(w, q) && |q| <= hops && n <= hops
    requires |q| == hops || Fresh(w, q) == {}
    ensures !Closes(w, n)
  {
    if q != [] { OpenPrefix(w, q, |q| - 1); }
    FrontiersAreLayers(w, q, hops);
    if n <= |q| { OpenSearchHasNoCycle(w, q, n); } else { ExhaustedSearchHasNoCycle(w, q, n); }
  }

  // ---------------------------------------------------------------- the ring's path

  /** `_spenders`: the addresses the transactions named by `txs` spent from. */
  function Spenders(ledger: seq<Tx>, txs: set<TxHash>): set<Address> {
    set tx, a | tx in ledger && tx.hash in txs && a in tx.spends :: a
  }

  /** Any address spending into `h` leads to the closing transaction in `m` more moves. */
  ghost predicate Carries(w: World, h: TxHash, m: nat, closing: TxHash) {
    exists tx :: tx in w.ledger && tx.hash == h && forall a :: a in tx.spends ==> LeadsTo(w, m, a, closing)
  }

  ghost predicate OnRing(w: World, q: seq<set<Address>>, closing: TxHash, i: nat, a: Address) {
    i < |q| && a in q[i] && Reached(w, i, a) && LeadsTo(w, |q| - 1 - i, a, closing)
  }

  ghost predicate Meets<T>(a: set<T>, b: set<T>) {
    a * b != {}
  }

  /** What a recovered path promises. */
  ghost predicate IsRingPath(w: World, q: seq<set<Address>>, closing: TxHash, path: set<Address>) {
    && path !! OriginAddresses(w)
    && (forall i :: 0 <= i < |q| ==> Meets(path, q[i]))
    && |path| >= |q|
    && forall a :: a in path ==> exists i: nat :: OnRing(w, q, closing, i, a)
  }

  /** The last frontier of `q` spends into the closing transaction, and `creator` explains how the others were
      reached. */
  ghost predicate Closed(w: World, q: seq<set<Address>>, creator: map<Address, TxHash>, closing: TxHash) {
    && q != [] && Frontiers(w, q)
    && Attributed(w, q[..|q| - 1], creator)
    && exists row :: row in Answer(w, q[|q| - 1]) && row.tx == closing
  }

  lemma SameHash(ledger: seq<Tx>, a: Tx, b: Tx)
    requires DistinctHashes(ledger) && a in ledger && b in ledger && a.hash == b.hash
    ensures a == b
  {}

  lemma FollowsAlone(w: World, tx: Tx, a: Address, frontier: set<Address>)
    requires Follows(w, tx, frontier) && a in tx.spends
    ensures Follows(w, tx, {a})
  {
    assert a in tx.spends * {a};
  }

  /** The closing transaction is one level up from every address that spends into it. */
  lemma ClosingCarries(w: World, q: seq<set<Address>>, creator: map<Address, TxHash>, closing: TxHash)
    requires Closed(w, q, creator, closing)
    ensures Carries(w, closing, 0, closing)
    ensures Spenders(w.ledger, {closing}) * q[|q| - 1] != {}
  {
    var n := |q| - 1;
    var row :| row in Answer(w, q[n]) && row.tx == closing;
    var a, tx := RowsMove(w, q[n], row);
    forall b | b in tx.spends ensures LeadsTo(w, 0, b, closing) { FollowsAlone(w, tx, b, q[n]); }
    assert a in tx.spends by { var x :| x in tx.spends * {a}; }
    assert a in Spenders(w.ledger, {closing}) * q[n];
  }

  /** The row by which an address of a later frontier was first reached. */
  lemma CreatorRow(w: World, q: seq<set<Address>>, creator: map<Address, TxHash>, closing: TxHash, k: nat, a: Address)
    returns (row: Row)
    requires Closed(w, q, creator, closing) && 0 < k < |q| && a in q[k]
    ensures a in creator && row in Answer(w, q[k - 1]) && row.address == a && row.tx == creator[a]
  {
    var p := q[..|q| - 1];
    assert AttributedAt(w, p, creator, k - 1) && FrontierAt(w, q, k);
    assert p[..k - 1 + 1] == q[..k] && p[k - 1] == q[k - 1];
    row := FirstPayerRow(Answer(w, q[k - 1]), a, creator[a]);
  }

  lemma FirstPayerRow(rows: seq<Row>, a: Address, h: TxHash) returns (row: Row)
    requires FirstPayer(rows, a, h)
    ensures row in rows && row.address == a && row.tx == h
  {
    var j :| 0 <= j < |rows| && rows[j].address == a && rows[j].tx == h;
    row := rows[j];
  }

  /** So is the transaction that first paid an address leading there, and the frontier below spends into it. */
  lemma CreatorCarries(w: World, frontier: set<Address>, row: Row, m: nat, closing: TxHash)
    requires row in Answer(w, frontier) && LeadsTo(w, m, row.address, closing)
    ensures row.tx != w.origin
    ensures Carries(w, row.tx, m + 1, closing)
    ensures Spenders(w.ledger, {row.tx}) * frontier != {}
  {
    var b, tx := RowsMove(w, frontier, row);
    forall c | c in tx.spends ensures LeadsTo(w, m + 1, c, closing) {
      FollowsAlone(w, tx, c, frontier);
      assert Moves(w, c, row.address);
    }
    assert b in tx.spends by { var x :| x in tx.spends * {b}; }
    assert b in Spenders(w.ledger, {row.tx}) * frontier;
  }

  lemma SpendersLead(w: World, txs: set<TxHash>, m: nat, closing: TxHash, a: Address)
    requires DistinctHashes(w.ledger) && (forall h :: h in txs ==> Carries(w, h, m, closing))
    requires a in Spenders(w.ledger, txs)
    ensures LeadsTo(w, m, a, closing)
  {
    var tx :| tx in w.ledger && tx.hash in txs && a in tx.spends;
    var carrier :|
      carrier in w.ledger && carrier.hash == tx.hash && forall b :: b in carrier.spends ==> LeadsTo(w, m, b, closing);
    SameHash(w.ledger, tx, carrier);
  }

  /** Pairwise disjoint sets that all meet `path` are no more than its elements. */
  lemma {:induction false} MeetingDisjointSets<T>(path: set<T>, q: seq<set<T>>)
    requires forall i :: 0 <= i < |q| ==> Meets(path, q[i])
    requires forall i, j :: 0 <= i < j < |q| ==> q[i] !! q[j]
    ensures |path| >= |q|
    decreases |q|
  {
    if q != [] {
      var n := |q| - 1;
      var rest := path - q[n];
      forall i | 0 <= i < n ensures Meets(rest, q[i]) {
        assert Meets(path, q[i]) && q[i] !! q[n];
        var x :| x in path * q[i];
        assert x in rest * q[i];
      }
      MeetingDisjointSets(rest, q[..n]);
      assert |path| == |rest| + |path * q[n]| by { assert path == rest + path * q[n]; }
    }
  }

  lemma FrontiersDisjoint(w: World, q: seq<set<Address>>, i: nat, j: nat)
    requires Frontiers(w, q) && i < j < |q|
    ensures q[i] !! q[j] && q[i] !! OriginAddresses(w)
  {
    assert FrontierAt(w, q, i) && FrontierAt(w, q, j);
    FreshDisjoint(w, q, i, j);
  }

  lemma FrontierReached(w: World, q: seq<set<Address>>, i: nat, a: Address)
    requires Frontiers(w, q) && i < |q| && a in q[i]
    ensures Reached(w, i, a) && a !in OriginAddresses(w)
  {
    assert FrontierAt(w, q, i);
    FrontiersPrefix(w, q, i);
    FreshIsReached(w, q[..i], a);
    FreshInSeen(w, q[..i]);
  }

  /** The transactions found so far lead on to the close, and the frontier below spends into one of them. */
  ghost predicate LevelFound(w: World, q: seq<set<Address>>, closing: TxHash, txs: set<TxHash>, k: nat)
    requires 0 < k <= |q|
  {
    (forall h :: h in txs ==> Carries(w, h, |q| - k, closing)) && Spenders(w.ledger, txs) * q[k - 1] != {}
  }

  ghost predicate AllOnRing(w: World, q: seq<set<Address>>, closing: TxHash, path: set<Address>) {
    forall a :: a in path ==> exists i: nat :: OnRing(w, q, closing, i, a)
  }

  lemma LevelOnRing(w: World, q: seq<set<Address>>, closing: TxHash, txs: set<TxHash>, k: nat)
    requires DistinctHashes(w.ledger) && Frontiers(w, q) && 0 < k <= |q| && LevelFound(w, q, closing, txs, k)
    ensures AllOnRing(w, q, closing, Spenders(w.ledger, txs) * q[k - 1])
  {
    var i := k - 1;
    forall a | a in Spenders(w.ledger, txs) && a in q[i] ensures OnRing(w, q, closing, i, a) {
      SpendersLead(w, txs, |q| - k, closing, a);
      FrontierReached(w, q, i, a);
    }
  }

  /** From one level to the one below; at the bottom, every creator is the origin transaction. */
  lemma LevelBelow(w: World, q: seq<set<Address>>, creator: map<Address, TxHash>, closing: TxHash, txs: set<TxHash>,
                   k: nat)
    requires DistinctHashes(w.ledger) && Closed(w, q, creator, closing)
    requires 0 < k <= |q| && LevelFound(w, q, closing, txs, k)
    ensures var spenders := Spenders(w.ledger, txs) * q[k - 1];
            && (forall a :: a in spenders ==> a in creator)
            && (k > 1 ==> LevelFound(w, q, closing, (set a | a in spenders :: creator[a]) - {w.origin}, k - 1))
  {
    hide DistinctHashes, Closed, Frontiers, Carries, LeadsTo, Answer;
    var spenders := Spenders(w.ledger, txs) * q[k - 1];
    if k == 1 {
      forall a | a in spenders ensures a in creator { FirstFrontierCreated(w, q, creator, closing, a); }
    } else {
      forall a | a in spenders ensures CreatorLevel(w, q, creator, closing, k, a) {
        SpendersLead(w, txs, |q| - k, closing, a);
        var row := CreatorRow(w, q, creator, closing, k - 1, a);
        CreatorCarries(w, q[k - 2], row, |q| - k, closing);
      }
      var a :| a in spenders;
      assert CreatorLevel(w, q, creator, closing, k, a);
      var below := (set a | a in spenders :: creator[a]) - {w.origin};
      assert creator[a] in below;
      assert Spenders(w.ledger, {creator[a]}) <= Spenders(w.ledger, below);
    }
  }

  ghost predicate CreatorLevel(w: World, q: seq<set<Address>>, creator: map<Address, TxHash>, closing: TxHash, k: nat,
                               a: Address)
    requires 1 < k <= |q|
  {
    && a in creator && creator[a] != w.origin
    && Carries(w, creator[a], |q| - k + 1, closing)
    && Spenders(w.ledger, {creator[a]}) * q[k - 2] != {}
  }

  /** `_ring_path`, as a set; the source lists it sorted. */
  method RingPath(w: World, q: seq<set<Address>>, creator: map<Address, TxHash>, closing: TxHash)
    returns (path: set<Address>)
    requires DistinctHashes(w.ledger) && Closed(w, q, creator, closing)
    ensures IsRingPath(w, q, closing, path)
  {
    hide Frontiers, Attributed, Carries, OnRing, IsRingPath, Spenders, DistinctHashes;
    path := {};
    var txs := {closing};
    var k := |q|;
    ClosingCarries(w, q, creator, closing);
    while k > 0
      invariant 0 <= k <= |q|
      invariant k > 0 ==> LevelFound(w, q, closing, txs, k)
      invariant forall i :: k <= i < |q| ==> Meets(path, q[i])
      invariant AllOnRing(w, q, closing, path)
    {
      if txs == {} {
        NoSpenders(w.ledger);
        break;
      }
      LevelOnRing(w, q, closing, txs, k);
      LevelBelow(w, q, creator, closing, txs, k);
      var spenders := Spenders(w.ledger, txs) * q[k - 1];
      PathGrows(path, spenders, q, k);
      path := path + spenders;
      txs := (set a | a in spenders :: creator[a]) - {w.origin};
      k := k - 1;
    }
    PathComplete(w, q, closing, path);
  }

  lemma NoSpenders(ledger: seq<Tx>)
    ensures Spenders(ledger, {}) == {}
  {}

  lemma PathGrows(path: set<Address>, more: set<Address>, q: seq<set<Address>>, k: nat)
    requires 0 < k <= |q| && more <= q[k - 1] && more != {}
    requires forall i :: k <= i < |q| ==> Meets(path, q[i])
    ensures forall i :: k - 1 <= i < |q| ==> Meets(path + more, q[i])
  {
    forall i | k - 1 <= i < |q| ensures Meets(path + more, q[i]) {
      if i < k { var x :| x in more; assert x in (path + more) * q[i]; }
      else { assert Meets(path, q[i]); var x :| x in path * q[i]; assert x in (path + more) * q[i]; }
    }
  }

  lemma AllDisjoint(w: World, q: seq<set<Address>>)
    requires Frontiers(w, q)
    ensures forall i, j :: 0 <= i < j < |q| ==> q[i] !! q[j]
  {
    forall i, j | 0 <= i < j < |q| ensures q[i] !! q[j] { FrontiersDisjoint(w, q, i, j); }
  }

  lemma PathComplete(w: World, q: seq<set<Address>>, closing: TxHash, path: set<Address>)
    requires Frontiers(w, q) && AllOnRing(w, q, closing, path)
    requires forall i :: 0 <= i < |q| ==> Meets(path, q[i])
    ensures IsRingPath(w, q, closing, path)
  {
    hide Frontiers, Reached, LeadsTo, OriginAddresses;
    AllDisjoint(w, q);
    MeetingDisjointSets(path, q);
    forall a | a in path ensures a !in OriginAddresses(w) {
      var i: nat :| OnRing(w, q, closing, i, a);
      FrontierReached(w, q, i, a);
    }
  }

  lemma FirstFrontierCreated(w: World, q: seq<set<Address>>, creator: map<Address, TxHash>, closing: TxHash, a: Address)
    requires Closed(w, q, creator, closing) && a in q[0]
    ensures a in creator && creator[a] == w.origin
  {
    assert FrontierAt(w, q, 0) && q[..0] == [];
  }

  // ---------------------------------------------------------------- the search itself

  /** The knobs outside the ledger: hop bound, the gate's length bounds, how many closing outputs are taken apart. */
  datatype Settings = Settings(maxHops: int, defaultHops: nat, minLength: nat, maxLength: nat, subsetMaxOutputs: nat)

  function Hops(s: Settings): nat {
    if s.maxHops <= 0 then s.defaultHops else s.maxHops
  }

  predicate Scored(s: Settings, length: nat) {
    s.minLength <= length <= s.maxLength
  }

  /** Whether each of the two reads made for a closure the gate can score fails. */
  datatype Reads = Reads(closingLegFails: bool, historyFails: bool)

  /** A detected cycle: its length, the row that closed it, the amounts of its hops before the close, what came
      back and how it reads, and the recovered path where one was read. */
  datatype Cycle = Cycle(length: nat, closing: Row, amounts: seq<nat>, returned: nat, reading: nat,
                         legUnavailable: bool, path: Option<set<Address>>, historyUnavailable: bool)

  function ClosingOutputs(w: World, closing: TxHash): seq<nat> {
    match Find(w.ledger, closing)
    case None => []
    case Some(tx) => OutputsTo(tx.outputs, OriginAddresses(w))
  }

  method FirstInOrder(all: set<Address>, cap: nat) returns (f: set<Address>)
    ensures IsFrontier(all, cap, f)
    ensures |f| <= cap && forall a, b :: a in f && b in all && b !in f ==> a.rank < b.rank
  {
    f := {};
    var rest := all;
    while rest != {} && |f| < cap
      invariant f <= all && rest == all - f && |f| <= cap
      invariant |f| + |rest| == |all|
      invariant forall a, b :: a in f && b in rest ==> a.rank < b.rank
      decreases rest
    {
      var m := LeastAddress(rest);
      f := f + {m};
      rest := rest - {m};
    }
  }

  method LeastAddress(s: set<Address>) returns (m: Address)
    requires s != {}
    ensures m in s && forall x :: x in s - {m} ==> m.rank < x.rank
  {
    m := Any(s);
    var rest := s - {m};
    while rest != {}
      invariant m in s && rest <= s - {m}
      invariant forall x :: x in s - {m} && x !in rest ==> m.rank < x.rank
      decreases rest
    {
      var x := Any(rest);
      if x.rank < m.rank { m := x; } else { assert x.rank != m.rank by { assert x != m; } }
      rest := rest - {x};
    }
  }

  /** The first row that pays the origin, if any. */
  ghost predicate IsFirstClosing(w: World, rows: seq<Row>, r: Option<Row>) {
    match r
    case None => !PaysOrigin(w, rows)
    case Some(row) => exists i :: 0 <= i < |rows| && rows[i] == row && row.address in OriginAddresses(w)
                                  && forall j :: 0 <= j < i ==> rows[j].address !in OriginAddresses(w)
  }

  /** What one hop's rows leave behind: the addresses they first reach, who paid each first, and how much. */
  method ScanRows(w: World, rows: seq<Row>, visited: set<Address>, creator: map<Address, TxHash>)
    returns (closing: Option<Row>, next: set<Address>, created: map<Address, TxHash>, amount: nat)
    requires OriginAddresses(w) <= visited && creator.Keys == visited - OriginAddresses(w)
    ensures IsFirstClosing(w, rows, closing)
    ensures created.Keys >= creator.Keys && forall a :: a in creator ==> created[a] == creator[a]
    ensures closing.None? ==>
              && next == PayeesOf(rows) - visited
              && amount == NewlyPaid(rows, visited)
              && created.Keys == creator.Keys + next
              && forall a :: a in next ==> FirstPayer(rows, a, created[a])
  {
    hide FirstPayer, PayeesOf, NewlyPaid;
    next, created, amount := {}, creator, 0;
    closing := None;
    NothingScanned(visited);
    for k := 0 to |rows|
      invariant forall j :: 0 <= j < k ==> rows[j].address !in OriginAddresses(w)
      invariant next == PayeesOf(rows[..k]) - visited
      invariant amount == NewlyPaid(rows[..k], visited)
      invariant created.Keys == creator.Keys + next
      invariant forall a :: a in creator ==> created[a] == creator[a]
      invariant forall a :: a in next ==> FirstPayer(rows[..k], a, created[a])
    {
      var r := rows[k];
      if r.address in OriginAddresses(w) {
        closing := Some(r);
        return;
      }
      assert rows[..k + 1] == rows[..k] + [r];
      RowScanned(rows[..k], r, visited, next, created);
      if r.address !in visited {
        next := next + {r.address};
        if r.address !in created { created := created[r.address := r.tx]; }
        amount := amount + r.paid;
      }
    }
    assert rows[..|rows|] == rows;
  }

  lemma NothingScanned(visited: set<Address>)
    ensures PayeesOf([]) == {} && NewlyPaid([], visited) == 0
  {}

  /** One more row adds what it first reaches. */
  lemma RowScanned(rows: seq<Row>, r: Row, visited: set<Address>, next: set<Address>, created: map<Address, TxHash>)
    requires next == PayeesOf(rows) - visited
    requires forall a :: a in next ==> a in created && FirstPayer(rows, a, created[a])
    ensures PayeesOf(rows + [r]) - visited == if r.address in visited then next else next + {r.address}
    ensures NewlyPaid(rows + [r], visited) == NewlyPaid(rows, visited) + if r.address in visited then 0 else r.paid
    ensures forall a :: a in next ==> FirstPayer(rows + [r], a, created[a])
    ensures r.address !in next && r.address !in visited ==> FirstPayer(rows + [r], r.address, r.tx)
  {
    assert (rows + [r])[..|rows|] == rows;
    assert forall x :: x in rows + [r] <==> x in rows || x == r;
    forall a | a in next ensures FirstPayer(rows + [r], a, created[a]) { FirstPayerStays(rows, r, a, created[a]); }
    if r.address !in next && r.address !in visited { NewPayer(rows, r, r.address); }
  }

  lemma FirstPayerStays(rows: seq<Row>, r: Row, a: Address, h: TxHash)
    requires FirstPayer(rows, a, h)
    ensures FirstPayer(rows + [r], a, h)
  {
    var j :|
      0 <= j < |rows| && rows[j].address == a && rows[j].tx == h && forall i :: 0 <= i < j ==> rows[i].address != a;
    assert (rows + [r])[j] == rows[j];
  }

  lemma NewPayer(rows: seq<Row>, r: Row, a: Address)
    requires a == r.address && a !in PayeesOf(rows)
    ensures FirstPayer(rows + [r], a, r.tx)
  {
    forall i | 0 <= i < |rows| ensures rows[i].address != a { assert rows[i] in rows; }
    assert (rows + [r])[|rows|] == r;
  }

  /** The search state after the frontiers `q` were expanded without paying the origin. */
  ghost predicate State(w: World, q: seq<set<Address>>, visited: set<Address>, current: set<Address>,
                        creator: map<Address, TxHash>, amounts: seq<nat>) {
    && Frontiers(w, q) && Open(w, q)
    && visited == Seen(w, q) && current == Fresh(w, q)
    && creator.Keys == visited - OriginAddresses(w) && Attributed(w, q, creator)
    && amounts == HopAmounts(w, q)
  }

  lemma InitialState(w: World)
    ensures State(w, [], OriginAddresses(w) + Recipients(w), Recipients(w),
                  map a | a in Recipients(w) :: w.origin, [AmountLeaving(OriginOutputs(w), OriginAddresses(w))])
  {}

  lemma FrontiersExtend(w: World, q: seq<set<Address>>, f: set<Address>)
    requires Frontiers(w, q) && IsFrontier(Fresh(w, q), w.maxFanout, f)
    ensures Frontiers(w, q + [f])
  {
    forall i | 0 <= i < |q| + 1 ensures FrontierAt(w, q + [f], i) {
      if i < |q| { assert FrontierAt(w, q, i) && (q + [f])[..i] == q[..i]; } else { assert (q + [f])[..i] == q; }
    }
  }

  lemma OpenExtends(w: World, q: seq<set<Address>>, f: set<Address>)
    requires Open(w, q) && !PaysOrigin(w, Answer(w, f))
    ensures Open(w, q + [f])
  {
    forall i | 0 <= i < |q| + 1 ensures OpenAt(w, q + [f], i) { if i < |q| { assert OpenAt(w, q, i); } }
  }

  lemma AttributedExtends(w: World, q: seq<set<Address>>, f: set<Address>, creator: map<Address, TxHash>,
                          created: map<Address, TxHash>)
    requires Attributed(w, q, creator) && creator.Keys == Seen(w, q) - OriginAddresses(w)
    requires created.Keys >= creator.Keys && forall a :: a in creator ==> created[a] == creator[a]
    ensures Attributed(w, q, created)
    ensures (forall a :: a in PayeesOf(Answer(w, f)) - Seen(w, q) ==>
              a in created && FirstPayer(Answer(w, f), a, created[a]))
            ==> Attributed(w, q + [f], created)
  {
    hide Fresh, Answer, PayeesOf, FirstPayer, Seen, Recipients, OriginAddresses;
    forall i | 0 <= i < |q| ensures AttributedAt(w, q, created, i) { assert AttributedAt(w, q, creator, i); }
    if forall a :: a in PayeesOf(Answer(w, f)) - Seen(w, q) ==>
        a in created && FirstPayer(Answer(w, f), a, created[a]) {
      forall i | 0 <= i < |q| + 1 ensures AttributedAt(w, q + [f], created, i) {
        if i < |q| { assert AttributedAt(w, q, created, i) && (q + [f])[..i + 1] == q[..i + 1]; }
        else { SeenAfter(w, q, f); assert (q + [f])[..i + 1] == q + [f]; }
      }
    }
  }

  lemma SeenAfter(w: World, q: seq<set<Address>>, f: set<Address>)
    ensures Seen(w, q + [f]) == Seen(w, q) + PayeesOf(Answer(w, f))
    ensures Fresh(w, q + [f]) == PayeesOf(Answer(w, f)) - Seen(w, q)
    ensures HopAmounts(w, q + [f]) == HopAmounts(w, q) + [NewlyPaid(Answer(w, f), Seen(w, q))]
  {
    assert (q + [f])[..|q|] == q;
  }

  /** A hop that does not close takes the search to the state one frontier on. */
  lemma NextState(w: World, q: seq<set<Address>>, visited: set<Address>, current: set<Address>,
                  creator: map<Address, TxHash>, amounts: seq<nat>, f: set<Address>, next: set<Address>,
                  created: map<Address, TxHash>, amount: nat)
    requires State(w, q, visited, current, creator, amounts) && IsFrontier(current, w.maxFanout, f)
    requires !PaysOrigin(w, Answer(w, f))
    requires next == PayeesOf(Answer(w, f)) - visited && amount == NewlyPaid(Answer(w, f), visited)
    requires created.Keys == creator.Keys + next && (forall a :: a in creator ==> created[a] == creator[a])
    requires forall a :: a in next ==> FirstPayer(Answer(w, f), a, created[a])
    ensures State(w, q + [f], visited + next, next, created, amounts + [amount])
  {
    hide Frontiers, Open, Attributed, FirstPayer, IsFrontier, Answer, NewlyPaid, OriginAddresses, PaysOrigin;
    FrontiersExtend(w, q, f);
    OpenExtends(w, q, f);
    AttributedExtends(w, q, f, creator, created);
    SeenAfter(w, q, f);
    NextOutsideOrigin(w, q, next);
  }

  lemma NextOutsideOrigin(w: World, q: seq<set<Address>>, next: set<Address>)
    requires next !! Seen(w, q)
    ensures next !! OriginAddresses(w)
  {
    SeenGrows(w, q, 0);
  }

  /** `row` is what one in-window transaction pays one of the origin's addresses, its outputs there added up. */
  ghost predicate IsReturn(w: World, row: Row) {
    exists origin, tx :: IsReturnOf(w, row, origin, tx)
  }

  ghost predicate IsReturnOf(w: World, row: Row, origin: Tx, tx: Tx) {
    && origin in w.ledger && origin.hash == w.origin && row.address in origin.spends
    && InWindow(w, origin, tx) && tx.hash == row.tx && tx.slot == Some(row.slot)
    && exists inside, outside :: Divided(tx.outputs, {row.address}, inside, outside) && row.paid == Total(inside)
  }

  /** `outputs` are the amounts the transaction pays to the origin's addresses. */
  ghost predicate LegOutputs(w: World, closing: TxHash, outputs: seq<nat>) {
    exists tx :: tx in w.ledger && tx.hash == closing && PaidBack(tx.outputs, OriginAddresses(w), outputs)
  }

  lemma {:induction false} FoundIn(ledger: seq<Tx>, hash: TxHash)
    ensures Find(ledger, hash).Some? ==> Find(ledger, hash).value in ledger && Find(ledger, hash).value.hash == hash
  {
    if ledger != [] {
      assert ledger == [ledger[0]] + ledger[1..];
      FoundIn(ledger[1..], hash);
    }
  }

  /** A closing row is such a payment, and the outputs read for it are its transaction's. */
  lemma ClosingRowReturns(w: World, frontier: set<Address>, row: Row)
    requires DistinctHashes(w.ledger) && row in Answer(w, frontier) && row.address in OriginAddresses(w)
    ensures IsReturn(w, row) && LegOutputs(w, row.tx, ClosingOutputs(w, row.tx))
  {
    hide DistinctHashes, OutputsTo, Divided, Answer, Total, PaidTo, Pays;
    FoundIn(w.ledger, w.origin);
    var origin := Find(w.ledger, w.origin).value;
    assert row in HopRows(w, w.ledger, frontier) by { AnswerWithin(w, frontier, row); }
    HopRowsMeaning(w, w.ledger, frontier, row);
    var tx :| tx in w.ledger && Follows(w, tx, frontier) && IsRowOf(tx, row);
    FindFinds(w.ledger, tx);
    var inside, outside := PaidToAddsUp(tx.outputs, row.address);
    assert IsReturnOf(w, row, origin, tx);
    var back, away := Division(tx.outputs, OriginAddresses(w));
  }

  lemma AnswerWithin(w: World, frontier: set<Address>, row: Row)
    requires row in Answer(w, frontier)
    ensures row in HopRows(w, w.ledger, frontier)
  {}

  /** What a detected cycle promises: the frontiers `q` it was found along explain its length, the row that
      closed it, its hop amounts and its path. */
  ghost predicate Explained(w: World, s: Settings, c: Cycle, q: seq<set<Address>>) {
    && q != [] && |q| == c.length - 1 && Frontiers(w, q) && Open(w, q[..|q| - 1])
    && IsFirstClosing(w, Answer(w, q[|q| - 1]), Some(c.closing))
    && c.amounts == HopAmounts(w, q[..|q| - 1]) && HopsPay(w, q[..|q| - 1], c.amounts)
    && IsReturn(w, c.closing)
    && (c.path.Some? ==> Scored(s, c.length) && IsRingPath(w, q, c.closing.tx, c.path.value))
  }

  /** What it says came back. */
  ghost predicate ReadsBack(w: World, s: Settings, io: Reads, c: Cycle) {
    var outputs, scored := ClosingOutputs(w, c.closing.tx), s.minLength <= c.length <= s.maxLength;
    && c.amounts != [] && LegOutputs(w, c.closing.tx, outputs)
    && (c.legUnavailable <==> scored && io.closingLegFails)
    && (c.historyUnavailable <==> scored && io.historyFails)
    && (c.path.None? <==> !scored || io.historyFails)
    && (!scored || c.legUnavailable ==> c.returned == c.reading == c.closing.paid)
    && ClosingReading.FitsAtLeast(c.amounts, c.reading, c.closing.paid)
    && (scored && !c.legUnavailable ==>
          && c.returned
              == (if ClosingReading.Sum(outputs) >= c.closing.paid then ClosingReading.Sum(outputs) else c.closing.paid)
          && ClosingReading.IsReading(outputs, c.closing.paid, c.returned, c.amounts, s.subsetMaxOutputs, c.reading))
  }

  /** `detect_cycle`. */
  method DetectCycle(w: World, s: Settings, io: Reads) returns (r: Option<Cycle>)
    requires DistinctHashes(w.ledger)
    ensures r.Some? ==> exists q :: Explained(w, s, r.value, q)
    ensures var hops := if s.maxHops > 0 then s.maxHops else s.defaultHops;
            && (r.Some? ==> 2 <= r.value.length <= hops + 1 && Closes(w, r.value.length - 1))
            && (NoCapBinds(w, hops) ==> (r.Some? <==> exists n: nat :: n <= hops && Closes(w, n)))
    ensures r.Some? ==> ReadsBack(w, s, io, r.value)
    ensures r.Some? ==> forall origin :: origin in w.ledger && origin.hash == w.origin ==>
              r.value.amounts != [] && PaidAway(origin.outputs, origin.spends, r.value.amounts[0])
    ensures NoCapBinds(w, Hops(s)) && r.Some? ==> forall n: nat :: n < r.value.length - 1 ==> !Closes(w, n)
  {
    hide Frontiers, Open, Attributed, Explained, ReadsBack, IsFrontier, HopAmounts, NoCapBinds, Closes, FirstPayer;
    hide OriginAddresses, Recipients, Answer, NewlyPaid, State, Finished, IsFirstClosing, PaysOrigin, PayeesOf,
        DistinctHashes;
    var origin := OriginAddresses(w);
    if origin == {} {
      forall n: nat ensures !Closes(w, n) { NothingReached(w, n); }
      return None;
    }
    var current := Recipients(w);
    if current == {} {
      forall n: nat ensures !Closes(w, n) { NothingReached(w, n); }
      return None;
    }
    if |current| > w.maxOutputFanout {
      FanoutCapBinds(w, Hops(s));
      return None;
    }
    var visited := origin + current;
    var amounts := [AmountLeaving(OriginOutputs(w), origin)];
    var creator := map a | a in current :: w.origin;
    var queried: seq<set<Address>> := [];
    InitialState(w);
    if Hops(s) == 0 { OutOfHops(w, queried, visited, current, creator, amounts, Hops(s)); }
    while |queried| < Hops(s)
      invariant |queried| <= Hops(s)
      invariant State(w, queried, visited, current, creator, amounts)
      invariant |queried| == Hops(s) ==> Finished(w, queried, Hops(s))
      decreases Hops(s) - |queried|
    {
      if current == {} {
        OutOfHops(w, queried, visited, current, creator, amounts, Hops(s));
        break;
      }
      var frontier := FirstInOrder(current, w.maxFanout);
      var rows := Answer(w, frontier);
      if rows == [] {
        NoRows(w, queried, visited, current, creator, amounts, frontier, Hops(s));
        queried := queried + [frontier];
        break;
      }
      ScanReady(w, queried, visited, current, creator, amounts);
      var closing, next, created, amount := ScanRows(w, rows, visited, creator);
      if closing.Some? {
        ClosingReady(w, queried, visited, current, creator, amounts, frontier, created);
        r := Closure(w, s, io, queried, frontier, closing.value, created, amounts);
        forall origin | origin in w.ledger && origin.hash == w.origin
          ensures r.value.amounts != [] && PaidAway(origin.outputs, origin.spends, r.value.amounts[0])
        {
          LeavesOrigin(w, s, r.value, queried + [frontier], origin);
        }
        return;
      }
      NoneClosing(w, rows);
      NextState(w, queried, visited, current, creator, amounts, frontier, next, created, amount);
      queried, visited, current, creator, amounts :=
        queried + [frontier], visited + next, next, created, amounts + [amount];
      if |queried| == Hops(s) { OutOfHops(w, queried, visited, current, creator, amounts, Hops(s)); }
    }
    if NoCapBinds(w, Hops(s)) { FinishedHasNone(w, queried, Hops(s)); }
    r := None;
  }

  lemma LeavesOrigin(w: World, s: Settings, c: Cycle, q: seq<set<Address>>, origin: Tx)
    requires DistinctHashes(w.ledger) && origin in w.ledger && origin.hash == w.origin && Explained(w, s, c, q)
    ensures c.amounts != [] && PaidAway(origin.outputs, origin.spends, c.amounts[0])
  {
    hide PaidAway, HopPays, Answer, IsReturn, IsFirstClosing, Frontiers, Open, IsRingPath, DistinctHashes;
    FindFinds(w.ledger, origin);
  }

  /** A search without a cycle that has nowhere left to go. */
  ghost predicate Finished(w: World, q: seq<set<Address>>, hops: nat) {
    Frontiers(w, q) && Open(w, q) && |q| <= hops && (|q| == hops || Fresh(w, q) == {})
  }

  lemma OutOfHops(w: World, q: seq<set<Address>>, visited: set<Address>, current: set<Address>,
                  creator: map<Address, TxHash>, amounts: seq<nat>, hops: nat)
    requires State(w, q, visited, current, creator, amounts) && |q| <= hops && (|q| == hops || current == {})
    ensures Finished(w, q, hops)
  {}

  lemma NoRows(w: World, q: seq<set<Address>>, visited: set<Address>, current: set<Address>,
               creator: map<Address, TxHash>, amounts: seq<nat>, f: set<Address>, hops: nat)
    requires State(w, q, visited, current, creator, amounts) && IsFrontier(current, w.maxFanout, f)
    requires Answer(w, f) == [] && |q| < hops
    ensures Finished(w, q + [f], hops)
  {
    hide Frontiers, Open, Attributed, IsFrontier, Answer, Seen, Fresh;
    FrontiersExtend(w, q, f);
    OpenExtends(w, q, f);
    SeenAfter(w, q, f);
  }

  lemma ScanReady(w: World, q: seq<set<Address>>, visited: set<Address>, current: set<Address>,
                  creator: map<Address, TxHash>, amounts: seq<nat>)
    requires State(w, q, visited, current, creator, amounts)
    ensures OriginAddresses(w) <= visited && creator.Keys == visited - OriginAddresses(w)
  {
    hide Frontiers, Open, Attributed, Seen, Fresh, OriginAddresses;
    SeenGrows(w, q, 0);
  }

  lemma ClosingReady(w: World, q: seq<set<Address>>, visited: set<Address>, current: set<Address>,
                     creator: map<Address, TxHash>, amounts: seq<nat>, f: set<Address>, created: map<Address, TxHash>)
    requires State(w, q, visited, current, creator, amounts) && IsFrontier(current, w.maxFanout, f)
    requires created.Keys >= creator.Keys && forall a :: a in creator ==> created[a] == creator[a]
    ensures Frontiers(w, q + [f]) && Open(w, q) && Attributed(w, q, created) && amounts == HopAmounts(w, q)
  {
    hide Frontiers, Open, Attributed, Seen, Fresh, IsFrontier, HopAmounts, Answer, PayeesOf, FirstPayer;
    FrontiersExtend(w, q, f);
    AttributedExtends(w, q, f, creator, created);
  }

  lemma NoneClosing(w: World, rows: seq<Row>)
    requires IsFirstClosing(w, rows, None)
    ensures !PaysOrigin(w, rows)
  {}

  lemma FinishedHasNone(w: World, q: seq<set<Address>>, hops: nat)
    requires Finished(w, q, hops) && NoCapBinds(w, hops)
    ensures forall n: nat :: n <= hops ==> !Closes(w, n)
  {
    hide Frontiers, Open, NoCapBinds, Closes, Fresh;
    forall n: nat | n <= hops ensures !Closes(w, n) { NoCycleWithinHops(w, q, hops, n); }
  }

  lemma FanoutCapBinds(w: World, hops: nat)
    requires |Recipients(w)| > w.maxOutputFanout
    ensures !NoCapBinds(w, hops)
  {}

  lemma NothingReached(w: World, n: nat)
    requires OriginAddresses(w) == {} || Recipients(w) == {}
    ensures !Closes(w, n)
  {
    if o :| o in OriginAddresses(w) && Reached(w, n, o) { NoChain(w, n, o); }
  }

  lemma {:induction false} NoChain(w: World, n: nat, a: Address)
    requires Recipients(w) == {}
    ensures !Reached(w, n, a)
    decreases n
  {
    if n > 0 && Reached(w, n, a) {
      var b := LastMove(w, n, a);
      NoChain(w, n - 1, b);
    }
  }

  /** The cycle closed by `closing`: measured by the closing leg, its path recovered when the gate can score it. */
  method Closure(w: World, s: Settings, io: Reads, p: seq<set<Address>>, frontier: set<Address>, closing: Row,
                 creator: map<Address, TxHash>, amounts: seq<nat>)
    returns (r: Option<Cycle>)
    requires DistinctHashes(w.ledger) && |p| < Hops(s)
    requires Frontiers(w, p + [frontier]) && Open(w, p) && Attributed(w, p, creator)
    requires IsFirstClosing(w, Answer(w, frontier), Some(closing)) && amounts == HopAmounts(w, p)
    ensures r.Some? && Explained(w, s, r.value, p + [frontier]) && ReadsBack(w, s, io, r.value)
    ensures r.value.length == |p| + 2 && Closes(w, |p| + 1)
    ensures NoCapBinds(w, Hops(s)) ==> forall n: nat :: n <= |p| ==> !Closes(w, n)
  {
    var q := p + [frontier];
    var length := |q| + 1;
    assert q[..|q| - 1] == p;
    assert closing in Answer(w, q[|q| - 1]);
    RowCloses(w, q, closing);
    ClosingRowReturns(w, frontier, closing);
    HopAmountsPay(w, p);
    if NoCapBinds(w, Hops(s)) {
      forall n: nat | n <= |p| ensures !Closes(w, n) { ClosingIsShortest(w, q, Hops(s), n); }
    }
    HopAmountsNonEmpty(w, p);
    var outputs := if io.closingLegFails then None else Some(ClosingOutputs(w, closing.tx));
    var returned, reading, failed :=
      ClosingReading.ClosingLegAmounts(outputs, Scored(s, length), closing.paid, amounts, s.subsetMaxOutputs);
    var path: Option<set<Address>> := None;
    if Scored(s, length) && !io.historyFails {
      assert Closed(w, q, creator, closing.tx);
      var found := RingPath(w, q, creator, closing.tx);
      path := Some(found);
    }
    r := Some(Cycle(length, closing, amounts, returned, reading, failed, path, Scored(s, length) && io.historyFails));
  }

  lemma HopAmountsNonEmpty(w: World, q: seq<set<Address>>)
    ensures HopAmounts(w, q) != []
  {}
}
