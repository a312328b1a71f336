/** The budgeted walk that turns a decoded Plutus datum into a display tree
    (`_Budget`, `_constructor_from_tag`, `_walk_cbor`, `_walk_plutus_json`). */
module DatumTree {
  import opened Collections

  const MAX_WALK_DEPTH := 64

  // ---------------------------------------------------------------- what is walked

  newtype Byte = i: int | 0 <= i < 256
  type Bytes = seq<Byte>

  /** A byte string, and what it reads as when it is printable UTF-8 (`_printable_text`). */
  datatype Blob = Blob(bytes: Bytes, text: Option<string>)

  /** A value as the CBOR decoder returns it; a map's keys are already distinct. */
  datatype Value =
    | Tag(number: int, payload: Value)
    | Array(items: seq<Value>)
    | Dict(entries: seq<Pair>)
    | Int(i: int) | Raw(blob: Blob) | Text(text: string) | Bool(b: bool) | Null | Other(repr: string)
  datatype Pair = Pair(key: Value, val: Value)

  /** A JSON value. A string carries what `bytes.fromhex` makes of it, None when that raises. */
  datatype Json =
    | JList(items: seq<Json>)
    | JObject(fields: seq<Field>)
    | JInt(i: int) | JString(text: string, hex: Option<Blob>) | JBool(b: bool) | JOther
  datatype Field = Field(name: string, val: Json)

  // ---------------------------------------------------------------- the tree

  datatype Kind = Constructor | List | Map | MapEntry | BytesLeaf | IntLeaf | TextLeaf | Truncated | Unknown

  /** A leaf's rendering: hexadecimal of bytes, decimal of an integer, or a string as it stands. */
  datatype Scalar = HexOf(bytes: Bytes) | DecimalOf(i: int) | Verbatim(text: string)

  /** `text` is the printable reading of a bytes leaf. */
  datatype Node = Node(kind: Kind, index: Option<int>, value: Option<Scalar>, text: Option<string>, children: seq<Node>)

  function Leaf(kind: Kind, value: Option<Scalar>): Node {
    Node(kind, None, value, None, [])
  }

  function BytesNode(b: Blob): Node {
    Node(BytesLeaf, None, Some(HexOf(b.bytes)), b.text, [])
  }

  function Branch(kind: Kind, children: seq<Node>): Node {
    Node(kind, None, None, None, children)
  }

  function Constr(index: Option<int>, children: seq<Node>): Node {
    Node(Constructor, index, None, None, children)
  }

  /** Tags 121-127 carry constructors 0-6 and tags 1280-1400 constructors 7-127. */
  function ConstructorFromTag(n: int): Option<int> {
    if 121 <= n <= 127 then Some(n - 121)
    else if 1280 <= n <= 1400 then Some(n - 1280 + (127 - 121 + 1))
    else None
  }

  function BoolText(b: bool): string {
    if b then "True" else "False"
  }

  // ---------------------------------------------------------------- the walk on values

  /** What is left of the node allowance, and whether either limit was hit. */
  datatype Left = Left(remaining: int, hit: bool)

  predicate Stops(depth: nat, l: Left) {
    depth > MAX_WALK_DEPTH || l.remaining <= 0
  }

  function Taken(l: Left): Left {
    Left(l.remaining - 1, l.hit)
  }

  function Walk(v: Value, depth: nat, l: Left): (Node, Left)
    decreases v, 1
  {
    if Stops(depth, l) then (Leaf(Truncated, None), Left(l.remaining, true))
    else
      var t := Taken(l);
      match v
      case Tag(n, payload) =>
        if ConstructorFromTag(n).Some? then
          if payload.Array? then
            var (fields, m) := WalkAll(payload.items, depth + 1, t);
            (Constr(ConstructorFromTag(n), fields), m)
          else
            var (field, m) := Walk(payload, depth + 1, t);
            (Constr(ConstructorFromTag(n), [field]), m)
        else if n == 102 && payload.Array? && |payload.items| == 2 then
          if payload.items[1].Array? then
            var (fields, m) := WalkAll(payload.items[1].items, depth + 1, t);
            (Constr(IndexOf(payload.items[0]), fields), m)
          else
            var (field, m) := Walk(payload.items[1], depth + 1, t);
            (Constr(IndexOf(payload.items[0]), [field]), m)
        else
          var (child, m) := Walk(payload, depth + 1, t);
          (Branch(Unknown, [child]), m)
      case Bool(b) => (Leaf(Unknown, Some(Verbatim(BoolText(b)))), t)
      case Int(i) => (Leaf(IntLeaf, Some(DecimalOf(i))), t)
      case Raw(b) => (BytesNode(b), t)
      case Text(s) => (Leaf(TextLeaf, Some(Verbatim(s))), t)
      case Array(items) =>
        var (children, m) := WalkAll(items, depth + 1, t);
        (Branch(List, children), m)
      case Dict(entries) =>
        var (children, m) := WalkPairs(entries, depth + 1, t);
        (Branch(Map, children), m)
      case Null => (Leaf(Unknown, None), t)
      case Other(repr) => (Leaf(Unknown, Some(Verbatim(repr))), t)
  }

  /** The general form's constructor index: an integer, of which a boolean is one. */
  function IndexOf(v: Value): Option<int> {
    match v case Int(i) => Some(i) case Bool(b) => Some(if b then 1 else 0) case _ => None
  }

  function WalkAll(vs: seq<Value>, depth: nat, l: Left): (seq<Node>, Left)
    decreases vs, 0
  {
    if vs == [] then ([], l)
    else
      var (first, m) := Walk(vs[0], depth, l);
      var (rest, n) := WalkAll(vs[1..], depth, m);
      ([first] + rest, n)
  }

  function WalkPairs(ps: seq<Pair>, depth: nat, l: Left): (seq<Node>, Left)
    decreases ps, 0
  {
    if ps == [] then ([], l)
    else
      var p := ps[0];
      assert p.key < p && p.val < p;
      var (key, m) := Walk(p.key, depth, l);
      var (val, n) := Walk(p.val, depth, m);
      var (rest, o) := WalkPairs(ps[1..], depth, n);
      ([Branch(MapEntry, [key, val])] + rest, o)
  }

  function WalkJson(j: Json, depth: nat, l: Left): (Node, Left)
    decreases j, 1
  {
    if Stops(depth, l) then (Leaf(Truncated, None), Left(l.remaining, true))
    else
      var t := Taken(l);
      match j
      case JList(items) =>
        var (children, m) := WalkJsonAll(items, depth + 1, t);
        (Branch(List, children), m)
      case JBool(b) => (Leaf(Unknown, Some(Verbatim(BoolText(b)))), t)
      case JInt(i) => (Leaf(IntLeaf, Some(DecimalOf(i))), t)
      case JString(s, _) => (Leaf(TextLeaf, Some(Verbatim(s))), t)
      case JOther => (Leaf(Unknown, None), t)
      case JObject(fs) =>
        var ctor, fields, list, entries, bytes := At(fs, "constructor"), At(fs, "fields"), At(fs, "list"),
            At(fs, "map"), At(fs, "bytes");
        if ctor < |fs| then
          if fields < |fs| && fs[fields].val.JList? then
            var (children, m) := WalkJsonAll(fs[fields].val.items, depth + 1, t);
            (Constr(JsonIndex(fs[ctor].val), children), m)
          else (Constr(JsonIndex(fs[ctor].val), []), t)
        else if list < |fs| && fs[list].val.JList? then
          var (children, m) := WalkJsonAll(fs[list].val.items, depth + 1, t);
          (Branch(List, children), m)
        else if entries < |fs| && fs[entries].val.JList? then
          var (children, m) := WalkJsonPairs(fs[entries].val.items, depth + 1, t);
          (Branch(Map, children), m)
        else if bytes < |fs| && fs[bytes].val.JString? then
          var s := fs[bytes].val;
          (if s.hex.Some? then BytesNode(s.hex.value) else Leaf(BytesLeaf, Some(Verbatim(s.text))), t)
        else if At(fs, "int") < |fs| && fs[At(fs, "int")].val.JInt? then
          (Leaf(IntLeaf, Some(DecimalOf(fs[At(fs, "int")].val.i))), t)
        else if At(fs, "integer") < |fs| && fs[At(fs, "integer")].val.JInt? then
          (Leaf(IntLeaf, Some(DecimalOf(fs[At(fs, "integer")].val.i))), t)
        else if At(fs, "string") < |fs| && fs[At(fs, "string")].val.JString? then
          (Leaf(TextLeaf, Some(Verbatim(fs[At(fs, "string")].val.text))), t)
        else
          var (children, m) := WalkFields(fs, depth + 1, t);
          (Branch(Unknown, children), m)
  }

  /** Where the field is, or the length when there is none. */
  function At(fs: seq<Field>, name: string): (i: nat)
    ensures i <= |fs| && (i < |fs| ==> fs[i].name == name) && forall k :: 0 <= k < i ==> fs[k].name != name
  {
    if fs == [] || fs[0].name == name then 0 else 1 + At(fs[1..], name)
  }

  function JsonIndex(j: Json): Option<int> {
    match j case JInt(i) => Some(i) case JBool(b) => Some(if b then 1 else 0) case _ => None
  }

  function WalkJsonAll(js: seq<Json>, depth: nat, l: Left): (seq<Node>, Left)
    decreases js, 0
  {
    if js == [] then ([], l)
    else
      var (first, m) := WalkJson(js[0], depth, l);
      var (rest, n) := WalkJsonAll(js[1..], depth, m);
      ([first] + rest, n)
  }

  /** One side of a map entry; a missing side walks like JSON's null. */
  function WalkSide(fs: seq<Field>, name: string, depth: nat, l: Left): (Node, Left)
    decreases fs, 0
  {
    if At(fs, name) < |fs| then WalkJson(fs[At(fs, name)].val, depth, l)
    else if Stops(depth, l) then (Leaf(Truncated, None), Left(l.remaining, true))
    else (Leaf(Unknown, None), Taken(l))
  }

  function WalkJsonPairs(js: seq<Json>, depth: nat, l: Left): (seq<Node>, Left)
    decreases js, 0
  {
    if js == [] then ([], l)
    else if js[0].JObject? then
      var (key, m) := WalkSide(js[0].fields, "k", depth, l);
      var (val, n) := WalkSide(js[0].fields, "v", depth, m);
      var (rest, o) := WalkJsonPairs(js[1..], depth, n);
      ([Branch(MapEntry, [key, val])] + rest, o)
    else WalkJsonPairs(js[1..], depth, l)
  }

  function WalkFields(fs: seq<Field>, depth: nat, l: Left): (seq<Node>, Left)
    decreases fs, 0
  {
    if fs == [] then ([], l)
    else
      assert fs[0] in fs;
      var (first, m) := WalkJson(fs[0].val, depth, l);
      var (rest, n) := WalkFields(fs[1..], depth, m);
      ([first] + rest, n)
  }

  // ---------------------------------------------------------------- the walk as it runs

  /** `_Budget`: one decode's node allowance. */
  class Budget {
    var remaining: int
    var hit: bool

    constructor (maxNodes: int)
      ensures State() == Left(maxNodes, false)
    {
      remaining, hit := maxNodes, false;
    }

    function State(): Left
      reads this
    {
      Left(remaining, hit)
    }

    method Take() returns (ok: bool)
      modifies this
      ensures ok <==> old(remaining) > 0
      ensures State() == if ok then Taken(old(State())) else Left(old(remaining), true)
    {
      if remaining <= 0 {
        hit := true;
        return false;
      }
      remaining := remaining - 1;
      return true;
    }
  }

  /** `_walk_cbor`. */
  method WalkCbor(v: Value, depth: nat, budget: Budget) returns (node: Node)
    modifies budget
    ensures (node, budget.State()) == Walk(v, depth, old(budget.State()))
    decreases v, 1
  {
    var ok := depth <= MAX_WALK_DEPTH;
    if ok { ok := budget.Take(); }
    if !ok {
      budget.hit := true;
      return Leaf(Truncated, None);
    }
    match v {
      case Tag(n, payload) =>
        if ConstructorFromTag(n).Some? {
          var fields := WalkFieldList(payload, depth + 1, budget);
          assert |fields| == 1 ==> fields == [fields[0]];
          node := Constr(ConstructorFromTag(n), fields);
        } else if n == 102 && payload.Array? && |payload.items| == 2 {
          var fields := WalkFieldList(payload.items[1], depth + 1, budget);
          assert |fields| == 1 ==> fields == [fields[0]];
          node := Constr(IndexOf(payload.items[0]), fields);
        } else {
          var child := WalkCbor(payload, depth + 1, budget);
          node := Branch(Unknown, [child]);
        }
      case Bool(b) => node := Leaf(Unknown, Some(Verbatim(BoolText(b))));
      case Int(i) => node := Leaf(IntLeaf, Some(DecimalOf(i)));
      case Raw(b) => node := BytesNode(b);
      case Text(s) => node := Leaf(TextLeaf, Some(Verbatim(s)));
      case Array(items) =>
        var children := WalkItems(items, depth + 1, budget);
        node := Branch(List, children);
      case Dict(entries) =>
        var children := WalkEntries(entries, depth + 1, budget);
        node := Branch(Map, children);
      case Null => node := Leaf(Unknown, None);
      case Other(repr) => node := Leaf(Unknown, Some(Verbatim(repr)));
    }
  }

  /** A constructor's fields: the payload's items, or the payload itself when it is no array. */
  method WalkFieldList(payload: Value, depth: nat, budget: Budget) returns (fields: seq<Node>)
    modifies budget
    ensures payload.Array? ==> (fields, budget.State()) == WalkAll(payload.items, depth, old(budget.State()))
    ensures !payload.Array? ==>
              |fields| == 1 && (fields[0], budget.State()) == Walk(payload, depth, old(budget.State()))
    decreases payload, 2
  {
    if payload.Array? {
      fields := WalkItems(payload.items, depth, budget);
    } else {
      var field := WalkCbor(payload, depth, budget);
      fields := [field];
    }
  }

  /** `_walk_plutus_json`. */
  method WalkPlutusJson(j: Json, depth: nat, budget: Budget) returns (node: Node)
    modifies budget
    ensures (node, budget.State()) == WalkJson(j, depth, old(budget.State()))
    decreases j, 1
  {
    hide At, Walk, WalkAll, WalkPairs, WalkJsonAll, WalkJsonPairs, WalkFields, WalkSide;
    var ok := depth <= MAX_WALK_DEPTH;
    if ok { ok := budget.Take(); }
    if !ok {
      budget.hit := true;
      return Leaf(Truncated, None);
    }
    match j {
      case JList(items) =>
        var children := WalkJsonItems(items, depth + 1, budget);
        node := Branch(List, children);
      case JBool(b) => node := Leaf(Unknown, Some(Verbatim(BoolText(b))));
      case JInt(i) => node := Leaf(IntLeaf, Some(DecimalOf(i)));
      case JString(text, _) => node := Leaf(TextLeaf, Some(Verbatim(text)));
      case JOther => node := Leaf(Unknown, None);
      case JObject(fs) =>
        var ctor, fields, list, entries, bytes := At(fs, "constructor"), At(fs, "fields"), At(fs, "list"),
            At(fs, "map"), At(fs, "bytes");
        if ctor < |fs| {
          var children := [];
          if fields < |fs| && fs[fields].val.JList? {
            children := WalkJsonItems(fs[fields].val.items, depth + 1, budget);
          }
          node := Constr(JsonIndex(fs[ctor].val), children);
        } else if list < |fs| && fs[list].val.JList? {
          var children := WalkJsonItems(fs[list].val.items, depth + 1, budget);
          node := Branch(List, children);
        } else if entries < |fs| && fs[entries].val.JList? {
          var children := WalkJsonEntries(fs[entries].val.items, depth + 1, budget);
          node := Branch(Map, children);
        } else if bytes < |fs| && fs[bytes].val.JString? {
          var s := fs[bytes].val;
          node := if s.hex.Some? then BytesNode(s.hex.value) else Leaf(BytesLeaf, Some(Verbatim(s.text)));
        } else if At(fs, "int") < |fs| && fs[At(fs, "int")].val.JInt? {
          node := Leaf(IntLeaf, Some(DecimalOf(fs[At(fs, "int")].val.i)));
        } else if At(fs, "integer") < |fs| && fs[At(fs, "integer")].val.JInt? {
          node := Leaf(IntLeaf, Some(DecimalOf(fs[At(fs, "integer")].val.i)));
        } else if At(fs, "string") < |fs| && fs[At(fs, "string")].val.JString? {
          node := Leaf(TextLeaf, Some(Verbatim(fs[At(fs, "string")].val.text)));
        } else {
          var children := WalkValues(fs, depth + 1, budget);
          node := Branch(Unknown, children);
        }
    }
  }

  method WalkJsonItems(items: seq<Json>, depth: nat, budget: Budget) returns (nodes: seq<Node>)
    modifies budget
    ensures (nodes, budget.State()) == WalkJsonAll(items, depth, old(budget.State()))
    decreases items, 0
  {
    nodes := [];
    for i := 0 to |items|
      invariant nodes + WalkJsonAll(items[i..], depth, budget.State()).0
                  == WalkJsonAll(items, depth, old(budget.State())).0
      invariant WalkJsonAll(items[i..], depth, budget.State()).1 == WalkJsonAll(items, depth, old(budget.State())).1
    {
      ghost var was := budget.State();
      var node := WalkPlutusJson(items[i], depth, budget);
      assert items[i..][1..] == items[i + 1..];
      assert nodes + WalkJsonAll(items[i..], depth, was).0
          == (nodes + [node]) + WalkJsonAll(items[i + 1..], depth, budget.State()).0;
      nodes := nodes + [node];
    }
    assert items[|items|..] == [];
    assert nodes + [] == nodes;
  }

  method WalkJsonSide(fs: seq<Field>, name: string, depth: nat, budget: Budget) returns (node: Node)
    modifies budget
    ensures (node, budget.State()) == WalkSide(fs, name, depth, old(budget.State()))
    decreases fs, 0
  {
    if At(fs, name) < |fs| {
      node := WalkPlutusJson(fs[At(fs, name)].val, depth, budget);
    } else {
      var ok := depth <= MAX_WALK_DEPTH;
      if ok { ok := budget.Take(); }
      if !ok { budget.hit := true; }
      node := Leaf(if ok then Unknown else Truncated, None);
    }
  }

  method WalkJsonEntries(items: seq<Json>, depth: nat, budget: Budget) returns (nodes: seq<Node>)
    modifies budget
    ensures (nodes, budget.State()) == WalkJsonPairs(items, depth, old(budget.State()))
    decreases items, 0
  {
    nodes := [];
    for i := 0 to |items|
      invariant nodes + WalkJsonPairs(items[i..], depth, budget.State()).0
                  == WalkJsonPairs(items, depth, old(budget.State())).0
      invariant WalkJsonPairs(items[i..], depth, budget.State()).1 == WalkJsonPairs(items, depth, old(budget.State())).1
    {
      ghost var was := budget.State();
      assert items[i..][1..] == items[i + 1..];
      if items[i].JObject? {
        var key := WalkJsonSide(items[i].fields, "k", depth, budget);
        var val := WalkJsonSide(items[i].fields, "v", depth, budget);
        var node := Branch(MapEntry, [key, val]);
        assert nodes + WalkJsonPairs(items[i..], depth, was).0
            == (nodes + [node]) + WalkJsonPairs(items[i + 1..], depth, budget.State()).0;
        nodes := nodes + [node];
      }
    }
    assert items[|items|..] == [];
    assert nodes + [] == nodes;
  }

  method WalkValues(fs: seq<Field>, depth: nat, budget: Budget) returns (nodes: seq<Node>)
    modifies budget
    ensures (nodes, budget.State()) == WalkFields(fs, depth, old(budget.State()))
    decreases fs, 0
  {
    nodes := [];
    for i := 0 to |fs|
      invariant nodes + WalkFields(fs[i..], depth, budget.State()).0 == WalkFields(fs, depth, old(budget.State())).0
      invariant WalkFields(fs[i..], depth, budget.State()).1 == WalkFields(fs, depth, old(budget.State())).1
    {
      ghost var was := budget.State();
      var f := fs[i];
      assert f.val < f;
      var node := WalkPlutusJson(f.val, depth, budget);
      assert fs[i..][1..] == fs[i + 1..];
      assert nodes + WalkFields(fs[i..], depth, was).0
          == (nodes + [node]) + WalkFields(fs[i + 1..], depth, budget.State()).0;
      nodes := nodes + [node];
    }
    assert fs[|fs|..] == [];
    assert nodes + [] == nodes;
  }

  method WalkItems(items: seq<Value>, depth: nat, budget: Budget) returns (nodes: seq<Node>)
    modifies budget
    ensures (nodes, budget.State()) == WalkAll(items, depth, old(budget.State()))
    decreases items, 0
  {
    nodes := [];
    for i := 0 to |items|
      invariant nodes + WalkAll(items[i..], depth, budget.State()).0 == WalkAll(items, depth, old(budget.State())).0
      invariant WalkAll(items[i..], depth, budget.State()).1 == WalkAll(items, depth, old(budget.State())).1
    {
      ghost var was := budget.State();
      var node := WalkCbor(items[i], depth, budget);
      assert items[i..][1..] == items[i + 1..];
      assert nodes + WalkAll(items[i..], depth, was).0
          == (nodes + [node]) + WalkAll(items[i + 1..], depth, budget.State()).0;
      nodes := nodes + [node];
    }
    assert items[|items|..] == [];
    assert nodes + [] == nodes;
  }

  method WalkEntries(entries: seq<Pair>, depth: nat, budget: Budget) returns (nodes: seq<Node>)
    modifies budget
    ensures (nodes, budget.State()) == WalkPairs(entries, depth, old(budget.State()))
    decreases entries, 0
  {
    nodes := [];
    for i := 0 to |entries|
      invariant nodes + WalkPairs(entries[i..], depth, budget.State()).0
                  == WalkPairs(entries, depth, old(budget.State())).0
      invariant WalkPairs(entries[i..], depth, budget.State()).1 == WalkPairs(entries, depth, old(budget.State())).1
    {
      ghost var was := budget.State();
      var p := entries[i];
      assert p.key < p && p.val < p;
      var key := WalkCbor(p.key, depth, budget);
      var val := WalkCbor(p.val, depth, budget);
      var node := Branch(MapEntry, [key, val]);
      assert entries[i..][1..] == entries[i + 1..];
      assert nodes + WalkPairs(entries[i..], depth, was).0
          == (nodes + [node]) + WalkPairs(entries[i + 1..], depth, budget.State()).0;
      nodes := nodes + [node];
    }
    assert entries[|entries|..] == [];
    assert nodes + [] == nodes;
  }

  // ---------------------------------------------------------------- the budget is accounted for

  function Count(n: Node): nat {
    (if n.kind == Truncated || n.kind == MapEntry then 0 else 1) + CountAll(n.children)
  }

  function CountAll(ns: seq<Node>): nat {
    if ns == [] then 0 else Count(ns[0]) + CountAll(ns[1..])
  }

  predicate HasTruncated(n: Node) {
    n.kind == Truncated || AnyTruncated(n.children)
  }

  predicate AnyTruncated(ns: seq<Node>) {
    ns != [] && (HasTruncated(ns[0]) || AnyTruncated(ns[1..]))
  }

  /** The nodes cost what left the budget, and a limit was hit exactly when a truncated node marks it. */
  ghost predicate Accounts(l: Left, ns: seq<Node>, m: Left) {
    && m.remaining >= 0 && CountAll(ns) == l.remaining - m.remaining
    && (m.hit <==> l.hit || AnyTruncated(ns))
  }

  lemma AccountsOne(l: Left, n: Node, m: Left)
    requires m.remaining >= 0 && Count(n) == l.remaining - m.remaining && (m.hit <==> l.hit || HasTruncated(n))
    ensures Accounts(l, [n], m)
  {
    assert [n][1..] == [];
  }

  lemma AccountsOf(l: Left, n: Node, m: Left)
    requires Accounts(l, [n], m)
    ensures m.remaining >= 0 && Count(n) == l.remaining - m.remaining && (m.hit <==> l.hit || HasTruncated(n))
  {
    assert [n][1..] == [];
    assert CountAll([n]) == Count([n][0]) + CountAll([n][1..]);
    assert AnyTruncated([n]) <==> HasTruncated([n][0]) || AnyTruncated([n][1..]);
  }

  lemma {:induction false} AccountsJoin(l: Left, a: seq<Node>, m: Left, b: seq<Node>, n: Left)
    requires Accounts(l, a, m) && Accounts(m, b, n)
    ensures Accounts(l, a + b, n)
  {
    CountJoin(a, b);
  }

  lemma {:induction false} CountJoin(a: seq<Node>, b: seq<Node>)
    ensures CountAll(a + b) == CountAll(a) + CountAll(b)
    ensures AnyTruncated(a + b) <==> AnyTruncated(a) || AnyTruncated(b)
  {
    if a == [] {
      assert a + b == b;
    } else {
      CountJoin(a[1..], b);
      assert (a + b)[1..] == a[1..] + b;
    }
  }

  /** A structural node over accounted children is accounted. */
  lemma AccountsBranch(l: Left, kind: Kind, index: Option<int>, children: seq<Node>, m: Left)
    requires l.remaining > 0 && Accounts(Taken(l), children, m) && kind != Truncated && kind != MapEntry
    ensures Accounts(l, [Node(kind, index, None, None, children)], m)
  {
    AccountsOne(l, Node(kind, index, None, None, children), m);
  }

  lemma AccountsEntry(l: Left, key: Node, val: Node, m: Left)
    requires Accounts(l, [key] + [val], m)
    ensures Accounts(l, [Branch(MapEntry, [key, val])], m)
  {
    assert [key] + [val] == [key, val];
    AccountsOne(l, Branch(MapEntry, [key, val]), m);
  }

  lemma {:induction false} WalkAccounts(v: Value, depth: nat, l: Left)
    requires l.remaining >= 0
    ensures Accounts(l, [Walk(v, depth, l).0], Walk(v, depth, l).1)
    decreases v, 1
  {
    var (n, m) := Walk(v, depth, l);
    if Stops(depth, l) {
      AccountsOne(l, n, m);
    } else {
      var t := Taken(l);
      match v {
        case Tag(number, payload) =>
          var general := ConstructorFromTag(number).None? && number == 102 && payload.Array? && |payload.items| == 2;
          if general && payload.items[1].Array? {
            WalkAllAccounts(payload.items[1].items, depth + 1, t);
          } else if general {
            WalkAccounts(payload.items[1], depth + 1, t);
          } else if ConstructorFromTag(number).Some? && payload.Array? {
            WalkAllAccounts(payload.items, depth + 1, t);
          } else {
            WalkAccounts(payload, depth + 1, t);
          }
          AccountsBranch(l, n.kind, n.index, n.children, m);
        case Array(items) =>
          WalkAllAccounts(items, depth + 1, t);
          AccountsBranch(l, List, None, n.children, m);
        case Dict(entries) =>
          WalkPairsAccounts(entries, depth + 1, t);
          AccountsBranch(l, Map, None, n.children, m);
        case _ => AccountsOne(l, n, m);
      }
    }
  }

  lemma {:induction false} WalkAllAccounts(vs: seq<Value>, depth: nat, l: Left)
    requires l.remaining >= 0
    ensures Accounts(l, WalkAll(vs, depth, l).0, WalkAll(vs, depth, l).1)
    decreases vs, 0
  {
    if vs != [] {
      var (first, m) := Walk(vs[0], depth, l);
      WalkAccounts(vs[0], depth, l);
      WalkAllAccounts(vs[1..], depth, m);
      AccountsJoin(l, [first], m, WalkAll(vs[1..], depth, m).0, WalkAll(vs[1..], depth, m).1);
    }
  }

  lemma {:induction false} WalkPairsAccounts(ps: seq<Pair>, depth: nat, l: Left)
    requires l.remaining >= 0
    ensures Accounts(l, WalkPairs(ps, depth, l).0, WalkPairs(ps, depth, l).1)
    decreases ps, 0
  {
    if ps != [] {
      var p := ps[0];
      assert p.key < p && p.val < p;
      var (key, m) := Walk(p.key, depth, l);
      var (val, n) := Walk(p.val, depth, m);
      WalkAccounts(p.key, depth, l);
      WalkAccounts(p.val, depth, m);
      AccountsJoin(l, [key], m, [val], n);
      AccountsEntry(l, key, val, n);
      WalkPairsAccounts(ps[1..], depth, n);
      AccountsJoin(l, [Branch(MapEntry, [key, val])], n, WalkPairs(ps[1..], depth, n).0,
                   WalkPairs(ps[1..], depth, n).1);
    }
  }

  lemma {:induction false} JsonAccounts(j: Json, depth: nat, l: Left)
    requires l.remaining >= 0
    ensures Accounts(l, [WalkJson(j, depth, l).0], WalkJson(j, depth, l).1)
    decreases j, 1
  {
    hide Accounts;
    var (n, m) := WalkJson(j, depth, l);
    if Stops(depth, l) {
      AccountsOne(l, n, m);
    } else {
      match j {
        case JList(items) =>
          JsonAllAccounts(items, depth + 1, Taken(l));
          AccountsBranch(l, List, None, n.children, m);
        case JObject(fs) => ObjectAccounts(j, fs, depth, l);
        case _ => AccountsOne(l, n, m);
      }
    }
  }

  lemma {:induction false} ObjectAccounts(j: Json, fs: seq<Field>, depth: nat, l: Left)
    requires l.remaining >= 0 && j == JObject(fs) && !Stops(depth, l)
    ensures Accounts(l, [WalkJson(j, depth, l).0], WalkJson(j, depth, l).1)
    decreases j, 0
  {
    hide Accounts, At, AnyTruncated;
    var (n, m) := WalkJson(j, depth, l);
    var t := Taken(l);
    var ctor, fields, list, entries := At(fs, "constructor"), At(fs, "fields"), At(fs, "list"), At(fs, "map");
    if ctor < |fs| {
      if fields < |fs| && fs[fields].val.JList? {
        JsonAllAccounts(fs[fields].val.items, depth + 1, t);
      } else {
        NothingAccounts(t);
      }
      AccountsBranch(l, Constructor, n.index, n.children, m);
    } else if list < |fs| && fs[list].val.JList? {
      JsonAllAccounts(fs[list].val.items, depth + 1, t);
      AccountsBranch(l, List, None, n.children, m);
    } else if entries < |fs| && fs[entries].val.JList? {
      JsonPairsAccounts(fs[entries].val.items, depth + 1, t);
      AccountsBranch(l, Map, None, n.children, m);
    } else if n.kind == Unknown {
      FieldsAccounts(fs, depth + 1, t);
      AccountsBranch(l, Unknown, None, n.children, m);
    } else {
      LeafAccounts(l, n);
    }
  }

  lemma NothingAccounts(l: Left)
    requires l.remaining >= 0
    ensures Accounts(l, [], l)
  {}

  lemma LeafAccounts(l: Left, n: Node)
    requires l.remaining > 0 && n.children == [] && n.kind != Truncated && n.kind != MapEntry
    ensures Accounts(l, [n], Taken(l))
  {
    AccountsOne(l, n, Taken(l));
  }

  lemma {:induction false} JsonAllAccounts(js: seq<Json>, depth: nat, l: Left)
    requires l.remaining >= 0
    ensures Accounts(l, WalkJsonAll(js, depth, l).0, WalkJsonAll(js, depth, l).1)
    decreases js, 0
  {
    if js != [] {
      var (first, m) := WalkJson(js[0], depth, l);
      JsonAccounts(js[0], depth, l);
      JsonAllAccounts(js[1..], depth, m);
      AccountsJoin(l, [first], m, WalkJsonAll(js[1..], depth, m).0, WalkJsonAll(js[1..], depth, m).1);
    }
  }

  lemma {:induction false} SideAccounts(fs: seq<Field>, name: string, depth: nat, l: Left)
    requires l.remaining >= 0
    ensures Accounts(l, [WalkSide(fs, name, depth, l).0], WalkSide(fs, name, depth, l).1)
    decreases fs, 0
  {
    if At(fs, name) < |fs| {
      JsonAccounts(fs[At(fs, name)].val, depth, l);
    } else {
      AccountsOne(l, WalkSide(fs, name, depth, l).0, WalkSide(fs, name, depth, l).1);
    }
  }

  lemma {:induction false} JsonPairsAccounts(js: seq<Json>, depth: nat, l: Left)
    requires l.remaining >= 0
    ensures Accounts(l, WalkJsonPairs(js, depth, l).0, WalkJsonPairs(js, depth, l).1)
    decreases js, 0
  {
    if js != [] {
      if js[0].JObject? {
        var (key, m) := WalkSide(js[0].fields, "k", depth, l);
        var (val, n) := WalkSide(js[0].fields, "v", depth, m);
        SideAccounts(js[0].fields, "k", depth, l);
        SideAccounts(js[0].fields, "v", depth, m);
        AccountsJoin(l, [key], m, [val], n);
        AccountsEntry(l, key, val, n);
        JsonPairsAccounts(js[1..], depth, n);
        AccountsJoin(l, [Branch(MapEntry, [key, val])], n, WalkJsonPairs(js[1..], depth, n).0,
                     WalkJsonPairs(js[1..], depth, n).1);
      } else {
        JsonPairsAccounts(js[1..], depth, l);
      }
    }
  }

  lemma {:induction false} FieldsAccounts(fs: seq<Field>, depth: nat, l: Left)
    requires l.remaining >= 0
    ensures Accounts(l, WalkFields(fs, depth, l).0, WalkFields(fs, depth, l).1)
    decreases fs, 0
  {
    if fs != [] {
      var f := fs[0];
      assert f.val < f;
      var (first, m) := WalkJson(f.val, depth, l);
      JsonAccounts(f.val, depth, l);
      FieldsAccounts(fs[1..], depth, m);
      AccountsJoin(l, [first], m, WalkFields(fs[1..], depth, m).0, WalkFields(fs[1..], depth, m).1);
    }
  }

  /** What a string datum holds: no hexadecimal, hexadecimal that is no CBOR, or a value. */
  datatype Hex = NotHex | NotCbor | Holds(v: Value)

  /** What arrived. A string arrives as `Stringly`. */
  datatype Datum = Missing | Stringly(content: Hex) | Structured(j: Json)

  datatype Encoding = NoEncoding | CborHex | PlutusJson

  datatype Decoded = Decoded(root: Option<Node>, encoding: Encoding, truncated: bool, error: Option<string>)

  /** Whether there is a tree to walk. */
  predicate Walkable(d: Datum) {
    match d
    case Missing => false
    case Stringly(content) => content.Holds?
    case Structured(j) => j.JObject? || j.JList?
  }

  function WalkDatum(d: Datum, l: Left): (Node, Left)
    requires Walkable(d)
  {
    match d case Stringly(content) => Walk(content.v, 0, l) case Structured(j) => WalkJson(j, 0, l)
  }

  /** `decode_datum_structure`. It never raises; what cannot be decoded is an error and not an empty tree. */
  method DecodeDatum(d: Datum, maxNodes: int) returns (r: Decoded)
    ensures r.root.Some? <==> Walkable(d)
    ensures r.error.Some? <==> !Walkable(d) && d != Missing
    ensures r.encoding == if d.Stringly? then CborHex else if Walkable(d) then PlutusJson else NoEncoding
    ensures Walkable(d) ==> (r.root.value, r.truncated) == (WalkDatum(d, Left(maxNodes, false)).0,
                                                            WalkDatum(d, Left(maxNodes, false)).1.hit)
    ensures r.truncated <==> r.root.Some? && HasTruncated(r.root.value)
    ensures r.root.Some? ==> Count(r.root.value) <= if maxNodes >= 0 then maxNodes else 0
    ensures d == Stringly(NotHex) ==> r.error == Some("datum is not valid hex")
    ensures d == Stringly(NotCbor) ==> r.error == Some("datum is not valid CBOR")
  {
    if d.Missing? { return Decoded(None, NoEncoding, false, None); }
    var budget := new Budget(maxNodes);
    var root;
    if d.Stringly? {
      if d.content.NotHex? { return Decoded(None, CborHex, false, Some("datum is not valid hex")); }
      if d.content.NotCbor? { return Decoded(None, CborHex, false, Some("datum is not valid CBOR")); }
      root := WalkCbor(d.content.v, 0, budget);
      if maxNodes >= 0 { WalkAccounts(d.content.v, 0, Left(maxNodes, false)); }
      r := Decoded(Some(root), CborHex, budget.hit, None);
    } else if d.j.JObject? || d.j.JList? {
      root := WalkPlutusJson(d.j, 0, budget);
      if maxNodes >= 0 { JsonAccounts(d.j, 0, Left(maxNodes, false)); }
      r := Decoded(Some(root), PlutusJson, budget.hit, None);
    } else {
      return Decoded(None, NoEncoding, false, Some("unrecognised datum representation"));
    }
    if maxNodes >= 0 { AccountsOf(Left(maxNodes, false), root, budget.State()); }
  }

  // ---------------------------------------------------------------- Plutus data and its encodings

  datatype Data =
    | DConstr(index: nat, fields: seq<Data>)
    | DMap(entries: seq<Entry>)
    | DList(items: seq<Data>)
    | DInt(i: int)
    | DBytes(blob: Blob)
  datatype Entry = Entry(key: Data, val: Data)

  /** The CBOR form, by the constructor tags above. */
  function Encode(d: Data): Value
    decreases d, 1
  {
    match d
    case DConstr(i, fs) =>
      var payload := Array(EncodeAll(fs));
      if i <= 6 then Tag(121 + i, payload)
      else if i <= 127 then Tag(1280 + i - 7, payload)
      else Tag(102, Array([Int(i), payload]))
    case DMap(es) => Dict(EncodeEntries(es))
    case DList(ds) => Array(EncodeAll(ds))
    case DInt(i) => Int(i)
    case DBytes(b) => Raw(b)
  }

  function EncodeAll(ds: seq<Data>): (vs: seq<Value>)
    ensures |vs| == |ds|
    decreases ds, 0
  {
    if ds == [] then [] else [Encode(ds[0])] + EncodeAll(ds[1..])
  }

  function EncodeEntries(es: seq<Entry>): (ps: seq<Pair>)
    ensures |ps| == |es|
    decreases es, 0
  {
    if es == [] then []
    else
      var e := es[0];
      assert e.key < e && e.val < e;
      [Pair(Encode(e.key), Encode(e.val))] + EncodeEntries(es[1..])
  }

  function HexText(b: Bytes): string {
    if b == [] then ""
    else var digits := "0123456789abcdef"; [digits[b[0] as int / 16], digits[b[0] as int % 16]] + HexText(b[1..])
  }

  /** The JSON form the chain indexer sends. */
  function EncodeJson(d: Data): Json
    decreases d, 1
  {
    match d
    case DConstr(i, fs) => JObject([Field("constructor", JInt(i)), Field("fields", JList(EncodeJsonAll(fs)))])
    case DMap(es) => JObject([Field("map", JList(EncodeJsonEntries(es)))])
    case DList(ds) => JObject([Field("list", JList(EncodeJsonAll(ds)))])
    case DInt(i) => JObject([Field("int", JInt(i))])
    case DBytes(b) => JObject([Field("bytes", JString(HexText(b.bytes), Some(b)))])
  }

  function EncodeJsonAll(ds: seq<Data>): seq<Json>
    decreases ds, 0
  {
    if ds == [] then [] else [EncodeJson(ds[0])] + EncodeJsonAll(ds[1..])
  }

  function EncodeJsonEntries(es: seq<Entry>): seq<Json>
    decreases es, 0
  {
    if es == [] then []
    else
      var e := es[0];
      assert e.key < e && e.val < e;
      [JObject([Field("k", EncodeJson(e.key)), Field("v", EncodeJson(e.val))])] + EncodeJsonEntries(es[1..])
  }

  // ---------------------------------------------------------------- repeated map keys

  /** Two decoded keys are equal: maps as such compare without regard to order. */
  predicate SameKey(a: Data, b: Data)
    decreases a, 2, 0
  {
    match a
    case DConstr(i, fs) => b.DConstr? && i == b.index && SameAll(fs, b.fields)
    case DMap(es) => b.DMap? && |es| == |b.entries| && SameEntries(es, b.entries)
    case DList(ds) => b.DList? && SameAll(ds, b.items)
    case DInt(i) => b.DInt? && i == b.i
    case DBytes(x) => b.DBytes? && x.bytes == b.blob.bytes
  }

  predicate SameAll(a: seq<Data>, b: seq<Data>)
    decreases a, 1, 0
  {
    if a == [] || b == [] then a == b else SameKey(a[0], b[0]) && SameAll(a[1..], b[1..])
  }

  predicate SameEntries(a: seq<Entry>, b: seq<Entry>)
    decreases a, 1, 0
  {
    a == [] || (HasEntry(a[0], b) && SameEntries(a[1..], b))
  }

  predicate HasEntry(e: Entry, b: seq<Entry>)
    decreases e, 0, |b|
  {
    assert e.key < e && e.val < e;
    b != [] && ((SameKey(e.key, b[0].key) && SameKey(e.val, b[0].val)) || HasEntry(e, b[1..]))
  }

  /** `d[key] = value`: a key that is there keeps its place and gets the value. */
  function Put(es: seq<Entry>, e: Entry): (r: seq<Entry>)
    ensures |es| <= |r| <= |es| + 1
  {
    if es == [] then [e]
    else if SameKey(e.key, es[0].key) then [Entry(es[0].key, e.val)] + es[1..]
    else [es[0]] + Put(es[1..], e)
  }

  function Deduped(es: seq<Entry>): (r: seq<Entry>)
    ensures |r| <= |es|
  {
    if es == [] then [] else Put(Deduped(es[..|es| - 1]), es[|es| - 1])
  }

  /** The datum that is left when every map becomes a dictionary. */
  function Normal(d: Data): Data
    decreases d, 1
  {
    match d
    case DConstr(i, fs) => DConstr(i, NormalAll(fs))
    case DMap(es) => DMap(Deduped(NormalEntries(es)))
    case DList(ds) => DList(NormalAll(ds))
    case _ => d
  }

  function NormalAll(ds: seq<Data>): (r: seq<Data>)
    ensures |r| == |ds|
    decreases ds, 0
  {
    if ds == [] then [] else [Normal(ds[0])] + NormalAll(ds[1..])
  }

  function NormalEntries(es: seq<Entry>): (r: seq<Entry>)
    ensures |r| == |es|
    decreases es, 0
  {
    if es == [] then []
    else
      var e := es[0];
      assert e.key < e && e.val < e;
      [Entry(Normal(e.key), Normal(e.val))] + NormalEntries(es[1..])
  }

  /** What the CBOR decoder returns for a datum. */
  function CborValue(d: Data): Value {
    Encode(Normal(d))
  }

  /** No entry's key is the key of an earlier one. */
  predicate NoneRepeated(es: seq<Entry>) {
    forall i, j :: 0 <= i < j < |es| ==> !SameKey(es[j].key, es[i].key)
  }

  /** No map in the datum repeats a key. */
  predicate DistinctKeys(d: Data)
    decreases d, 1
  {
    match d
    case DConstr(_, fs) => DistinctAll(fs)
    case DMap(es) => NoneRepeated(es) && DistinctEntries(es)
    case DList(ds) => DistinctAll(ds)
    case _ => true
  }

  predicate DistinctAll(ds: seq<Data>)
    decreases ds, 0
  {
    ds == [] || (DistinctKeys(ds[0]) && DistinctAll(ds[1..]))
  }

  predicate DistinctEntries(es: seq<Entry>)
    decreases es, 0
  {
    es == [] || (assert es[0].key < es[0] && es[0].val < es[0];
                 DistinctKeys(es[0].key) && DistinctKeys(es[0].val) && DistinctEntries(es[1..]))
  }

  lemma {:induction false} PutGrows(es: seq<Entry>, e: Entry)
    ensures |Put(es, e)| == |es| + 1 <==> forall i :: 0 <= i < |es| ==> !SameKey(e.key, es[i].key)
    ensures |Put(es, e)| == |es| + 1 ==> Put(es, e) == es + [e]
  {
    hide SameKey;
    if es != [] && !SameKey(e.key, es[0].key) {
      PutGrows(es[1..], e);
      assert es == [es[0]] + es[1..];
      if forall i :: 0 <= i < |es[1..]| ==> !SameKey(e.key, es[1..][i].key) {
        forall i | 0 <= i < |es| ensures !SameKey(e.key, es[i].key) { if i > 0 { assert es[i] == es[1..][i - 1]; } }
      }
    }
  }

  /** Nothing is dropped exactly when nothing is repeated, and then nothing changes. */
  lemma {:induction false} DedupedKeeps(es: seq<Entry>)
    ensures |Deduped(es)| == |es| <==> NoneRepeated(es)
    ensures NoneRepeated(es) ==> Deduped(es) == es
  {
    hide SameKey, Put;
    if es != [] {
      var p, e := es[..|es| - 1], es[|es| - 1];
      DedupedKeeps(p);
      PutGrows(Deduped(p), e);
      assert es == p + [e];
      if NoneRepeated(p) && (forall i :: 0 <= i < |p| ==> !SameKey(e.key, p[i].key)) {
        assert NoneRepeated(es);
      }
      if NoneRepeated(es) {
        assert NoneRepeated(p);
        forall i | 0 <= i < |p| ensures !SameKey(e.key, p[i].key) { assert !SameKey(es[|p|].key, es[i].key); }
      }
    }
  }

  /** The decoder keeps a datum exactly when none of its maps repeats a key. */
  lemma {:induction false} NormalIffDistinct(d: Data)
    ensures Normal(d) == d <==> DistinctKeys(d)
    decreases d, 1
  {
    match d {
      case DConstr(_, fs) => NormalAllIffDistinct(fs);
      case DMap(es) =>
        NormalEntriesIffDistinct(es);
        DedupedKeeps(NormalEntries(es));
      case DList(ds) => NormalAllIffDistinct(ds);
      case _ =>
    }
  }

  /** A map that gives the key 1 twice: the decoder keeps the later value only. */
  lemma RepeatedKeyDropped()
    ensures var d := DMap([Entry(DInt(1), DInt(2)), Entry(DInt(1), DInt(3))]);
            Normal(d) == DMap([Entry(DInt(1), DInt(3))]) && !DistinctKeys(d)
  {
    var first, second := Entry(DInt(1), DInt(2)), Entry(DInt(1), DInt(3));
    var es := [first, second];
    assert NormalEntries(es[1..]) == [second] && NormalEntries(es) == [first, second];
    assert es[..1] == [first] && es[..1][..0] == [];
    assert Deduped(es[..1]) == [first] && Deduped(es) == [second];
    NormalIffDistinct(DMap(es));
  }

  lemma {:induction false} NormalAllIffDistinct(ds: seq<Data>)
    ensures NormalAll(ds) == ds <==> DistinctAll(ds)
    decreases ds, 0
  {
    if ds != [] {
      hide Normal, DistinctKeys;
      NormalIffDistinct(ds[0]);
      NormalAllIffDistinct(ds[1..]);
      HeadTail(Normal(ds[0]), NormalAll(ds[1..]), ds);
    }
  }

  lemma {:induction false} NormalEntriesIffDistinct(es: seq<Entry>)
    ensures NormalEntries(es) == es <==> DistinctEntries(es)
    decreases es, 0
  {
    if es != [] {
      hide Normal, DistinctKeys;
      var e := es[0];
      assert e.key < e && e.val < e;
      NormalIffDistinct(e.key);
      NormalIffDistinct(e.val);
      NormalEntriesIffDistinct(es[1..]);
      HeadTail(Entry(Normal(e.key), Normal(e.val)), NormalEntries(es[1..]), es);
    }
  }

  lemma HeadTail<T>(x: T, rest: seq<T>, all: seq<T>)
    requires all != []
    ensures [x] + rest == all <==> x == all[0] && rest == all[1..]
  {
    assert all == [all[0]] + all[1..];
    if [x] + rest == all {
      assert all[0] == x && all[1..] == rest;
    }
  }

  // ---------------------------------------------------------------- lossless when not truncated

  /** The whole tree of a datum, every node in place. */
  function Tree(d: Data): Node
    decreases d, 1
  {
    match d
    case DConstr(i, fs) => Constr(Some(i), TreeAll(fs))
    case DMap(es) => Branch(Map, TreeEntries(es))
    case DList(ds) => Branch(List, TreeAll(ds))
    case DInt(i) => Leaf(IntLeaf, Some(DecimalOf(i)))
    case DBytes(b) => BytesNode(b)
  }

  function TreeAll(ds: seq<Data>): seq<Node>
    decreases ds, 0
  {
    if ds == [] then [] else [Tree(ds[0])] + TreeAll(ds[1..])
  }

  function TreeEntries(es: seq<Entry>): seq<Node>
    decreases es, 0
  {
    if es == [] then []
    else
      var e := es[0];
      assert e.key < e && e.val < e;
      [Branch(MapEntry, [Tree(e.key), Tree(e.val)])] + TreeEntries(es[1..])
  }

  /** How many values a datum is made of. */
  function Size(d: Data): nat
    decreases d, 1
  {
    1 + match d
        case DConstr(_, fs) => SizeAll(fs)
        case DMap(es) => SizeEntries(es)
        case DList(ds) => SizeAll(ds)
        case _ => 0
  }

  function SizeAll(ds: seq<Data>): nat
    decreases ds, 0
  {
    if ds == [] then 0 else Size(ds[0]) + SizeAll(ds[1..])
  }

  function SizeEntries(es: seq<Entry>): nat
    decreases es, 0
  {
    if es == [] then 0
    else
      var e := es[0];
      assert e.key < e && e.val < e;
      Size(e.key) + Size(e.val) + SizeEntries(es[1..])
  }

  /** No value of the datum, met at `depth`, lies below the depth limit. */
  predicate Shallow(d: Data, depth: nat)
    decreases d, 1
  {
    && depth <= MAX_WALK_DEPTH
    && match d
       case DConstr(_, fs) => ShallowAll(fs, depth + 1)
       case DMap(es) => ShallowEntries(es, depth + 1)
       case DList(ds) => ShallowAll(ds, depth + 1)
       case _ => true
  }

  predicate ShallowAll(ds: seq<Data>, depth: nat)
    decreases ds, 0
  {
    ds == [] || (Shallow(ds[0], depth) && ShallowAll(ds[1..], depth))
  }

  predicate ShallowEntries(es: seq<Entry>, depth: nat)
    decreases es, 0
  {
    es == [] || (assert es[0].key < es[0] && es[0].val < es[0];
                 Shallow(es[0].key, depth) && Shallow(es[0].val, depth) && ShallowEntries(es[1..], depth))
  }

  /** The walk gave the whole tree for its price exactly when the datum fits both limits. */
  ghost predicate Fits(l: Left, m: Left, whole: bool, fits: bool, size: nat) {
    && (!m.hit <==> fits && size <= l.remaining)
    && (!m.hit ==> whole && m == Left(l.remaining - size, false))
  }

  lemma {:induction false} HitStays(vs: seq<Value>, depth: nat, l: Left)
    requires l.remaining >= 0 && l.hit
    ensures WalkAll(vs, depth, l).1.hit
  {
    WalkAllAccounts(vs, depth, l);
  }

  lemma {:induction false} WalkFits(d: Data, depth: nat, l: Left)
    requires l.remaining >= 0 && !l.hit
    ensures var (n, m) := Walk(Encode(d), depth, l); Fits(l, m, n == Tree(d), Shallow(d, depth), Size(d))
    decreases d, 1
  {
    if Stops(depth, l) {
      StoppedFits(d, depth, l);
    } else {
      hide Walk, WalkAll, WalkPairs, Encode, EncodeAll, EncodeEntries, WalkJson, WalkJsonPairs, WalkJsonAll;
      match d {
        case DConstr(i, fs) =>
          ConstrWalk(i, fs, depth, l);
          WalkAllFits(fs, depth + 1, Taken(l));
        case DMap(es) =>
          MapWalk(es, depth, l);
          WalkEntriesFits(es, depth + 1, Taken(l));
        case DList(ds) =>
          ListWalk(ds, depth, l);
          WalkAllFits(ds, depth + 1, Taken(l));
        case DInt(_) => LeafFits(d, depth, l);
        case DBytes(_) => LeafFits(d, depth, l);
      }
    }
  }

  lemma StoppedFits(d: Data, depth: nat, l: Left)
    requires l.remaining >= 0 && !l.hit && Stops(depth, l)
    ensures var (n, m) := Walk(Encode(d), depth, l); Fits(l, m, n == Tree(d), Shallow(d, depth), Size(d))
  {
    hide Encode, Tree, WalkAll, WalkPairs, ShallowAll, ShallowEntries, SizeAll, SizeEntries;
  }

  lemma LeafFits(d: Data, depth: nat, l: Left)
    requires l.remaining >= 0 && !l.hit && !Stops(depth, l) && (d.DInt? || d.DBytes?)
    ensures var (n, m) := Walk(Encode(d), depth, l); Fits(l, m, n == Tree(d), Shallow(d, depth), Size(d))
  {
    hide WalkAll, WalkPairs, EncodeAll, EncodeEntries;
  }

  lemma {:induction false} WalkAllFits(ds: seq<Data>, depth: nat, l: Left)
    requires l.remaining >= 0 && !l.hit
    ensures var (ns, m) := WalkAll(EncodeAll(ds), depth, l);
              Fits(l, m, ns == TreeAll(ds), ShallowAll(ds, depth), SizeAll(ds))
    decreases ds, 0
  {
    if ds != [] {
      var v, vs := Encode(ds[0]), EncodeAll(ds[1..]);
      assert EncodeAll(ds) == [v] + vs && ([v] + vs)[1..] == vs;
      var (_, m) := Walk(v, depth, l);
      WalkFits(ds[0], depth, l);
      WalkAccounts(v, depth, l);
      if m.hit { HitStays(vs, depth, m); } else { WalkAllFits(ds[1..], depth, m); }
    }
  }

  lemma {:induction false} WalkEntriesFits(es: seq<Entry>, depth: nat, l: Left)
    requires l.remaining >= 0 && !l.hit
    ensures var (ns, m) := WalkPairs(EncodeEntries(es), depth, l);
            Fits(l, m, ns == TreeEntries(es), ShallowEntries(es, depth), SizeEntries(es))
    decreases es, 0
  {
    if es != [] {
      var e := es[0];
      assert e.key < e && e.val < e;
      var k, v, ps := Encode(e.key), Encode(e.val), EncodeEntries(es[1..]);
      assert EncodeEntries(es) == [Pair(k, v)] + ps && ([Pair(k, v)] + ps)[1..] == ps;
      var (_, m) := Walk(k, depth, l);
      var (_, n) := Walk(v, depth, m);
      WalkFits(e.key, depth, l);
      WalkAccounts(k, depth, l);
      WalkAccounts(v, depth, m);
      if !m.hit { WalkFits(e.val, depth, m); }
      if n.hit { WalkPairsAccounts(ps, depth, n); } else { WalkEntriesFits(es[1..], depth, n); }
    }
  }

  /** `part` shows `full` with some of its subtrees elided: every other node is in place with its own rendering. */
  predicate Prunes(part: Node, full: Node)
    decreases part, 1
  {
    || part == Leaf(Truncated, None)
    || (part.kind == full.kind && part.index == full.index && part.value == full.value && part.text == full.text
        && PruneAll(part.children, full.children))
  }

  predicate PruneAll(parts: seq<Node>, fulls: seq<Node>)
    decreases parts, 0
  {
    |parts| == |fulls| && (parts == [] || (Prunes(parts[0], fulls[0]) && PruneAll(parts[1..], fulls[1..])))
  }

  /** Whatever the limits, the walk shows nothing that is not in the datum, and nothing in another place. */
  lemma {:induction false} WalkPrunes(d: Data, depth: nat, l: Left)
    ensures Prunes(Walk(Encode(d), depth, l).0, Tree(d))
    decreases d, 1
  {
    if !Stops(depth, l) {
      match d {
        case DConstr(i, fs) =>
          hide Walk, WalkAll, Encode, EncodeAll;
          ConstrWalk(i, fs, depth, l);
          WalkAllPrunes(fs, depth + 1, Taken(l));
        case DMap(es) =>
          hide Walk, WalkPairs, Encode, EncodeEntries;
          MapWalk(es, depth, l);
          WalkEntriesPrune(es, depth + 1, Taken(l));
        case DList(ds) =>
          hide Walk, WalkAll, Encode, EncodeAll;
          ListWalk(ds, depth, l);
          WalkAllPrunes(ds, depth + 1, Taken(l));
        case DInt(_) =>
        case DBytes(_) =>
      }
    }
  }

  lemma {:induction false} WalkAllPrunes(ds: seq<Data>, depth: nat, l: Left)
    ensures PruneAll(WalkAll(EncodeAll(ds), depth, l).0, TreeAll(ds))
    decreases ds, 0
  {
    if ds != [] {
      var v, vs := Encode(ds[0]), EncodeAll(ds[1..]);
      assert EncodeAll(ds) == [v] + vs && ([v] + vs)[1..] == vs;
      var (first, m) := Walk(v, depth, l);
      WalkPrunes(ds[0], depth, l);
      WalkAllPrunes(ds[1..], depth, m);
      PruneFirst(first, Tree(ds[0]), WalkAll(vs, depth, m).0, TreeAll(ds[1..]));
    }
  }

  lemma PruneFirst(p: Node, f: Node, ps: seq<Node>, fs: seq<Node>)
    requires Prunes(p, f) && PruneAll(ps, fs)
    ensures PruneAll([p] + ps, [f] + fs)
  {
    assert ([p] + ps)[1..] == ps && ([f] + fs)[1..] == fs;
  }

  lemma PruneEntry(k: Node, v: Node, fk: Node, fv: Node)
    requires Prunes(k, fk) && Prunes(v, fv)
    ensures Prunes(Branch(MapEntry, [k, v]), Branch(MapEntry, [fk, fv]))
  {
    PruneFirst(v, fv, [], []);
    PruneFirst(k, fk, [v], [fv]);
    assert [k] + [v] == [k, v] && [fk] + [fv] == [fk, fv] && [v] + [] == [v] && [fv] + [] == [fv];
  }

  lemma {:induction false} WalkEntriesPrune(es: seq<Entry>, depth: nat, l: Left)
    ensures PruneAll(WalkPairs(EncodeEntries(es), depth, l).0, TreeEntries(es))
    decreases es, 0
  {
    if es != [] {
      var e := es[0];
      assert e.key < e && e.val < e;
      var k, v, ps := Encode(e.key), Encode(e.val), EncodeEntries(es[1..]);
      assert EncodeEntries(es) == [Pair(k, v)] + ps && ([Pair(k, v)] + ps)[1..] == ps;
      var (key, m) := Walk(k, depth, l);
      var (val, n) := Walk(v, depth, m);
      WalkPrunes(e.key, depth, l);
      WalkPrunes(e.val, depth, m);
      WalkEntriesPrune(es[1..], depth, n);
      PruneEntry(key, val, Tree(e.key), Tree(e.val));
      PruneFirst(Branch(MapEntry, [key, val]), Branch(MapEntry, [Tree(e.key), Tree(e.val)]), WalkPairs(ps, depth, n).0,
                 TreeEntries(es[1..]));
    }
  }

  /** The field's value: of the first field so named. */
  ghost predicate HasField(fs: seq<Field>, name: string, val: Json) {
    exists i :: 0 <= i < |fs| && fs[i] == Field(name, val) && forall k :: 0 <= k < i ==> fs[k].name != name
  }

  ghost predicate HasList(fs: seq<Field>, name: string) {
    exists items :: HasField(fs, name, JList(items))
  }

  ghost predicate Names(fs: seq<Field>, name: string) {
    exists i :: 0 <= i < |fs| && fs[i].name == name
  }

  lemma AtIsField(fs: seq<Field>, name: string)
    ensures At(fs, name) < |fs| <==> Names(fs, name)
    ensures forall val :: HasField(fs, name, val) <==> At(fs, name) < |fs| && fs[At(fs, name)].val == val
    ensures HasList(fs, name) <==> At(fs, name) < |fs| && fs[At(fs, name)].val.JList?
  {
    if At(fs, name) < |fs| { assert fs[At(fs, name)] == Field(name, fs[At(fs, name)].val); }
  }

  /** Which key of a JSON object decides its kind: "constructor", then a list under "list", then one under "map"; a
      string under "bytes" that is no hexadecimal is shown as it stands. */
  lemma JsonKindTells(fs: seq<Field>, depth: nat, l: Left)
    requires depth <= 64 && l.remaining > 0
    ensures var n := WalkJson(JObject(fs), depth, l).0;
            var open := !Names(fs, "constructor") && !HasList(fs, "list") && !HasList(fs, "map");
            && (n.kind == Constructor <==> Names(fs, "constructor"))
            && (n.kind == List <==> !Names(fs, "constructor") && HasList(fs, "list"))
            && (n.kind == Map <==> !Names(fs, "constructor") && !HasList(fs, "list") && HasList(fs, "map"))
            && (n.kind == BytesLeaf <==> open && exists s, hex :: HasField(fs, "bytes", JString(s, hex)))
            && (forall s :: open && HasField(fs, "bytes", JString(s, None)) ==> n.value == Some(Verbatim(s)))
  {
    hide At, WalkJsonAll, WalkJsonPairs, WalkFields, HasField, Names, HasList;
    AtIsField(fs, "constructor");
    AtIsField(fs, "list");
    AtIsField(fs, "map");
    AtIsField(fs, "bytes");
  }

  /** Booleans, in a datum or as a general constructor's index. */
  lemma BooleansShown(b: bool, fields: seq<Value>, depth: nat, l: Left)
    requires depth <= 64 && l.remaining > 0
    ensures var shown := if b then "True" else "False";
            && Walk(Bool(b), depth, l).0.value == Some(Verbatim(shown))
            && WalkJson(JBool(b), depth, l).0.value == Some(Verbatim(shown))
    ensures Walk(Tag(102, Array([Bool(b), Array(fields)])), depth, l).0.index == Some(if b then 1 else 0)
  {
    hide WalkAll, WalkPairs;
  }

  /** A node's kind tells what it stands for; a boolean is no integer. */
  lemma KindTells(v: Value, depth: nat, l: Left)
    ensures var n := Walk(v, depth, l).0;
            && (n.kind == Truncated <==> depth > 64 || l.remaining <= 0)
            && (n.kind != Truncated ==>
                  && (n.kind == IntLeaf <==> v.Int?) && (n.kind == BytesLeaf <==> v.Raw?)
                  && (n.kind == TextLeaf <==> v.Text?) && (n.kind == List <==> v.Array?) && (n.kind == Map <==> v.Dict?)
                  && (n.kind == Constructor <==>
                        v.Tag? && (121 <= v.number <= 127 || 1280 <= v.number <= 1400
                                   || (v.number == 102 && v.payload.Array? && |v.payload.items| == 2))))
  {
    hide WalkAll, WalkPairs;
  }

  /** Reads a datum back out of its tree. */
  function Recover(n: Node): Option<Data>
    decreases n, 1
  {
    match n.kind
    case Constructor =>
      var fields := RecoverAll(n.children);
      if n.index.Some? && n.index.value >= 0 && fields.Some? then Some(DConstr(n.index.value, fields.value)) else None
    case List => var items := RecoverAll(n.children); if items.Some? then Some(DList(items.value)) else None
    case Map => var entries := RecoverEntries(n.children); if entries.Some? then Some(DMap(entries.value)) else None
    case IntLeaf => if n.value.Some? && n.value.value.DecimalOf? then Some(DInt(n.value.value.i)) else None
    case BytesLeaf =>
      if n.value.Some? && n.value.value.HexOf? then Some(DBytes(Blob(n.value.value.bytes, n.text))) else None
    case _ => None
  }

  function RecoverAll(ns: seq<Node>): Option<seq<Data>>
    decreases ns, 0
  {
    if ns == [] then Some([])
    else
      var first, rest := Recover(ns[0]), RecoverAll(ns[1..]);
      if first.Some? && rest.Some? then Some([first.value] + rest.value) else None
  }

  function RecoverEntries(ns: seq<Node>): Option<seq<Entry>>
    decreases ns, 0
  {
    if ns == [] then Some([])
    else
      var e, rest := ns[0], RecoverEntries(ns[1..]);
      if e.kind == MapEntry && |e.children| == 2 && rest.Some? && Recover(e.children[0]).Some?
         && Recover(e.children[1]).Some?
      then Some([Entry(Recover(e.children[0]).value, Recover(e.children[1]).value)] + rest.value)
      else None
  }

  lemma {:induction false} RecoverTree(d: Data)
    ensures Recover(Tree(d)) == Some(d)
    decreases d, 1
  {
    match d {
      case DConstr(_, fs) => RecoverTreeAll(fs);
      case DMap(es) => RecoverTreeEntries(es);
      case DList(ds) => RecoverTreeAll(ds);
      case _ =>
    }
  }

  lemma TreesSplit(ds: seq<Data>)
    requires ds != []
    ensures TreeAll(ds) == [Tree(ds[0])] + TreeAll(ds[1..])
  {}

  lemma RecoverSplit(n: Node, ns: seq<Node>)
    ensures RecoverAll([n] + ns) == if Recover(n).Some? && RecoverAll(ns).Some?
                                    then Some([Recover(n).value] + RecoverAll(ns).value) else None
  {
    hide Recover;
    assert ([n] + ns)[1..] == ns;
  }

  lemma {:induction false} RecoverTreeAll(ds: seq<Data>)
    ensures RecoverAll(TreeAll(ds)) == Some(ds)
    decreases ds, 0
  {
    if ds != [] {
      hide Recover, RecoverAll, Tree, TreeAll;
      RecoverTree(ds[0]);
      RecoverTreeAll(ds[1..]);
      TreesSplit(ds);
      RecoverSplit(Tree(ds[0]), TreeAll(ds[1..]));
      assert ds == [ds[0]] + ds[1..];
    }
  }

  lemma EntryTreesSplit(es: seq<Entry>)
    requires es != []
    ensures TreeEntries(es) == [Branch(MapEntry, [Tree(es[0].key), Tree(es[0].val)])] + TreeEntries(es[1..])
  {}

  lemma RecoverEntriesSplit(k: Node, v: Node, ns: seq<Node>)
    ensures RecoverEntries([Branch(MapEntry, [k, v])] + ns)
         == if Recover(k).Some? && Recover(v).Some? && RecoverEntries(ns).Some?
            then Some([Entry(Recover(k).value, Recover(v).value)] + RecoverEntries(ns).value) else None
  {
    hide Recover;
    assert ([Branch(MapEntry, [k, v])] + ns)[1..] == ns;
  }

  lemma {:induction false} RecoverTreeEntries(es: seq<Entry>)
    ensures RecoverEntries(TreeEntries(es)) == Some(es)
    decreases es, 0
  {
    if es != [] {
      hide Recover, RecoverEntries, Tree, TreeEntries;
      var e := es[0];
      assert e.key < e && e.val < e;
      RecoverTree(e.key);
      RecoverTree(e.val);
      RecoverTreeEntries(es[1..]);
      EntryTreesSplit(es);
      RecoverEntriesSplit(Tree(e.key), Tree(e.val), TreeEntries(es[1..]));
      assert es == [es[0]] + es[1..];
    }
  }

  /** The datum's size and depth as decoded decide whether the walk is truncated. One that is not gives back the
      datum as decoded, and so the datum itself exactly when none of its maps repeats a key. */
  lemma DecodeLossless(d: Data, maxNodes: nat)
    ensures var (root, left) := Walk(CborValue(d), 0, Left(maxNodes, false));
            && (!left.hit <==> Shallow(Normal(d), 0) && Size(Normal(d)) <= maxNodes)
            && (!left.hit ==> Recover(root) == Some(Normal(d)) && (Recover(root) == Some(d) <==> DistinctKeys(d)))
            && (left.hit ==> HasTruncated(root))
  {
    hide Walk, Encode, Recover, Tree, Normal, DistinctKeys, Shallow, Size;
    var (root, left) := Walk(CborValue(d), 0, Left(maxNodes, false));
    WalkFits(Normal(d), 0, Left(maxNodes, false));
    WalkAccounts(CborValue(d), 0, Left(maxNodes, false));
    AccountsOf(Left(maxNodes, false), root, left);
    RecoverTree(Normal(d));
    NormalIffDistinct(d);
  }

  lemma FieldNames()
    ensures "int"[0] != "map"[0] && "k"[0] != "v"[0]
    ensures |"constructor"| == 11 && |"fields"| == 6 && |"list"| == 4 && |"bytes"| == 5
  {}

  /** Where no map repeats a key, the JSON form and the CBOR form of a datum give the same tree, truncated at the same
      places, at any depth and with any allowance; whole trees of the two forms are the same only then, because the
      JSON form keeps the repeated entries. */
  lemma SameTree(d: Data, depth: nat, l: Left)
    ensures DistinctKeys(d) ==> WalkJson(EncodeJson(d), depth, l) == Walk(CborValue(d), depth, l)
    ensures l.remaining >= 0 && !l.hit && !WalkJson(EncodeJson(d), depth, l).1.hit
            && !Walk(CborValue(d), depth, l).1.hit ==>
              (WalkJson(EncodeJson(d), depth, l).0 == Walk(CborValue(d), depth, l).0 <==> DistinctKeys(d))
  {
    hide Walk, WalkJson, Encode, EncodeJson, Recover, Tree, Normal, DistinctKeys, Shallow, Size;
    NormalIffDistinct(d);
    FormsAgree(d, depth, l);
    if l.remaining >= 0 && !l.hit {
      WalkFits(d, depth, l);
      WalkFits(Normal(d), depth, l);
      RecoverTree(d);
      RecoverTree(Normal(d));
    }
  }

  /** The two walks agree on a datum and its encoding, entry by entry. */
  lemma {:induction false} FormsAgree(d: Data, depth: nat, l: Left)
    ensures WalkJson(EncodeJson(d), depth, l) == Walk(Encode(d), depth, l)
    decreases d, 1
  {
    if !Stops(depth, l) {
      hide Walk, WalkJson, WalkAll, WalkJsonAll, WalkPairs, WalkJsonPairs, Encode, EncodeJson;
      match d {
        case DConstr(i, fs) =>
          FormsAgreeAll(fs, depth + 1, Taken(l));
          ConstrWalk(i, fs, depth, l);
          JsonConstrWalk(i, fs, depth, l);
        case DMap(es) =>
          FormsAgreeEntries(es, depth + 1, Taken(l));
          MapWalk(es, depth, l);
        case DList(ds) =>
          FormsAgreeAll(ds, depth + 1, Taken(l));
          ListWalk(ds, depth, l);
        case DInt(_) => ScalarWalk(d, depth, l);
        case DBytes(_) => ScalarWalk(d, depth, l);
      }
    } else {
      assert WalkJson(EncodeJson(d), depth, l) == (Leaf(Truncated, None), Left(l.remaining, true));
    }
  }

  lemma ConstrWalk(i: nat, fs: seq<Data>, depth: nat, l: Left)
    requires !Stops(depth, l)
    ensures var (ns, m) := WalkAll(EncodeAll(fs), depth + 1, Taken(l));
            Walk(Encode(DConstr(i, fs)), depth, l) == (Constr(Some(i), ns), m)
  {
    hide WalkAll, WalkPairs, EncodeAll, EncodeEntries;
    var payload := Array(EncodeAll(fs));
    if i <= 6 {
      assert Encode(DConstr(i, fs)) == Tag(121 + i, payload);
    } else if i <= 127 {
      assert Encode(DConstr(i, fs)) == Tag(1280 + i - 7, payload);
    } else {
      assert Encode(DConstr(i, fs)) == Tag(102, Array([Int(i), payload]));
    }
  }

  lemma JsonConstrWalk(i: nat, fs: seq<Data>, depth: nat, l: Left)
    requires !Stops(depth, l)
    ensures var (ns, m) := WalkJsonAll(EncodeJsonAll(fs), depth + 1, Taken(l));
            WalkJson(EncodeJson(DConstr(i, fs)), depth, l) == (Constr(Some(i), ns), m)
  {
    var fields := EncodeJson(DConstr(i, fs)).fields;
    ConstrFields(JInt(i), JList(EncodeJsonAll(fs)));
    hide At;
    assert fields[0].val == JInt(i) && fields[1].val == JList(EncodeJsonAll(fs));
  }

  lemma ConstrFields(index: Json, list: Json)
    ensures var fs := [Field("constructor", index), Field("fields", list)];
              At(fs, "constructor") == 0 && At(fs, "fields") == 1
  {
    FieldNames();
    var fs := [Field("constructor", index), Field("fields", list)];
    assert At(fs[1..], "fields") == 0;
  }

  lemma MapWalk(es: seq<Entry>, depth: nat, l: Left)
    requires !Stops(depth, l)
    ensures var (ns, m) := WalkPairs(EncodeEntries(es), depth + 1, Taken(l));
            Walk(Encode(DMap(es)), depth, l) == (Branch(Map, ns), m)
    ensures var (ns, m) := WalkJsonPairs(EncodeJsonEntries(es), depth + 1, Taken(l));
            WalkJson(EncodeJson(DMap(es)), depth, l) == (Branch(Map, ns), m)
  {
    FieldNames();
  }

  lemma ListWalk(ds: seq<Data>, depth: nat, l: Left)
    requires !Stops(depth, l)
    ensures var (ns, m) := WalkAll(EncodeAll(ds), depth + 1, Taken(l));
            Walk(Encode(DList(ds)), depth, l) == (Branch(List, ns), m)
    ensures var (ns, m) := WalkJsonAll(EncodeJsonAll(ds), depth + 1, Taken(l));
            WalkJson(EncodeJson(DList(ds)), depth, l) == (Branch(List, ns), m)
  {
    FieldNames();
  }

  lemma ScalarWalk(d: Data, depth: nat, l: Left)
    requires !Stops(depth, l) && (d.DInt? || d.DBytes?)
    ensures WalkJson(EncodeJson(d), depth, l) == Walk(Encode(d), depth, l)
  {
    FieldNames();
  }

  lemma {:induction false} FormsAgreeAll(ds: seq<Data>, depth: nat, l: Left)
    ensures WalkJsonAll(EncodeJsonAll(ds), depth, l) == WalkAll(EncodeAll(ds), depth, l)
    decreases ds, 0
  {
    if ds != [] {
      FormsAgree(ds[0], depth, l);
      var m := Walk(Encode(ds[0]), depth, l).1;
      FormsAgreeAll(ds[1..], depth, m);
      assert EncodeAll(ds)[1..] == EncodeAll(ds[1..]);
      assert EncodeJsonAll(ds)[1..] == EncodeJsonAll(ds[1..]);
    }
  }

  lemma {:induction false} FormsAgreeEntries(es: seq<Entry>, depth: nat, l: Left)
    ensures WalkJsonPairs(EncodeJsonEntries(es), depth, l) == WalkPairs(EncodeEntries(es), depth, l)
    decreases es, 0
  {
    if es != [] {
      var e := es[0];
      assert e.key < e && e.val < e;
      FieldNames();
      var m := Walk(Encode(e.key), depth, l).1;
      var n := Walk(Encode(e.val), depth, m).1;
      FormsAgree(e.key, depth, l);
      FormsAgree(e.val, depth, m);
      FormsAgreeEntries(es[1..], depth, n);
      assert EncodeEntries(es)[1..] == EncodeEntries(es[1..]);
      assert EncodeJsonEntries(es)[1..] == EncodeJsonEntries(es[1..]);
      var fs := [Field("k", EncodeJson(e.key)), Field("v", EncodeJson(e.val))];
      assert EncodeJsonEntries(es)[0] == JObject(fs);
      assert At(fs, "k") == 0 && At(fs, "v") == 1;
    }
  }
}
