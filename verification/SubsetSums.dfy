/** The search for the subset sums nearest a target (`_subset_sums`, `_nearest_subset_sums`). */
module SubsetSums {
  import opened Collections

  /** The sum of the amounts that `pick` selects. */
  function PickSum(amounts: seq<nat>, pick: seq<bool>): nat
    requires |pick| == |amounts|
  {
    if amounts == [] then 0
    else PickSum(amounts[..|amounts| - 1], pick[..|pick| - 1]) + if pick[|pick| - 1] then amounts[|amounts| - 1] else 0
  }

  ghost predicate IsSubsetSum(amounts: seq<nat>, s: int) {
    exists pick: seq<bool> :: |pick| == |amounts| && PickSum(amounts, pick) == s
  }

  ghost predicate IsNonEmptySubsetSum(amounts: seq<nat>, s: int) {
    exists pick: seq<bool> :: |pick| == |amounts| && true in pick && PickSum(amounts, pick) == s
  }

  lemma PickLast(amounts: seq<nat>, last: nat, pick: seq<bool>, b: bool)
    requires |pick| == |amounts|
    ensures PickSum(amounts + [last], pick + [b]) == PickSum(amounts, pick) + if b then last else 0
  {
    assert (amounts + [last])[..|amounts|] == amounts && (pick + [b])[..|pick|] == pick;
  }

  lemma SumGrows(amounts: seq<nat>, last: nat, s: int, b: bool)
    requires IsSubsetSum(amounts, s)
    ensures IsSubsetSum(amounts + [last], s + if b then last else 0)
  {
    hide PickSum;
    var pick :| |pick| == |amounts| && PickSum(amounts, pick) == s;
    PickLast(amounts, last, pick, b);
    assert |pick + [b]| == |amounts + [last]|;
  }

  lemma SumShrinks(amounts: seq<nat>, last: nat, s: int)
    requires IsSubsetSum(amounts + [last], s)
    ensures IsSubsetSum(amounts, s) || IsSubsetSum(amounts, s - last)
  {
    hide PickSum;
    var pick :| |pick| == |amounts + [last]| && PickSum(amounts + [last], pick) == s;
    var head, b := pick[..|pick| - 1], pick[|pick| - 1];
    assert pick == head + [b];
    PickLast(amounts, last, head, b);
  }

  lemma SubsetSumExtends(amounts: seq<nat>, last: nat, s: int)
    ensures IsSubsetSum(amounts + [last], s) <==> IsSubsetSum(amounts, s) || IsSubsetSum(amounts, s - last)
  {
    hide IsSubsetSum;
    if IsSubsetSum(amounts + [last], s) { SumShrinks(amounts, last, s); }
    if IsSubsetSum(amounts, s) { SumGrows(amounts, last, s, false); }
    if IsSubsetSum(amounts, s - last) { SumGrows(amounts, last, s - last, true); }
  }

  /** `_subset_sums`: the set holds exactly the subset sums, the empty subset's 0 included. */
  method AllSubsetSums(amounts: seq<nat>) returns (sums: set<int>)
    ensures forall s :: s in sums <==> IsSubsetSum(amounts, s)
    ensures 0 in sums && forall s :: s in sums ==> s >= 0
  {
    sums := {0};
    assert PickSum([], []) == 0;
    for i := 0 to |amounts|
      invariant forall s :: s in sums <==> IsSubsetSum(amounts[..i], s)
      invariant 0 in sums && forall s: int :: s in sums ==> s >= 0
    {
      ghost var before := sums;
      var amount: int := amounts[i];
      sums := sums + set s | s in sums :: s + amount;
      assert amounts[..i + 1] == amounts[..i] + [amounts[i]];
      forall s: int ensures s in sums <==> IsSubsetSum(amounts[..i + 1], s) {
        SubsetSumExtends(amounts[..i], amounts[i], s);
        if IsSubsetSum(amounts[..i], s - amount) { assert s - amount in before; }
      }
    }
    assert amounts[..|amounts|] == amounts;
  }

  /** A selection over the whole list is one selection per half. */
  lemma PickSumSplits(left: seq<nat>, right: seq<nat>, p: seq<bool>, q: seq<bool>)
    requires |p| == |left| && |q| == |right|
    ensures PickSum(left + right, p + q) == PickSum(left, p) + PickSum(right, q)
  {
    if right == [] {
      assert left + right == left && p + q == p;
    } else {
      var r, t := right[..|right| - 1], q[..|q| - 1];
      assert (left + right)[..|left + right| - 1] == left + r;
      assert (p + q)[..|p + q| - 1] == p + t;
      PickSumSplits(left, r, p, t);
    }
  }

  lemma SumSplitsInHalves(left: seq<nat>, right: seq<nat>, s: int) returns (a: int)
    requires IsSubsetSum(left + right, s)
    ensures IsSubsetSum(left, a) && IsSubsetSum(right, s - a)
  {
    var pick :| |pick| == |left + right| && PickSum(left + right, pick) == s;
    var p, q := pick[..|left|], pick[|left|..];
    assert pick == p + q;
    PickSumSplits(left, right, p, q);
    a := PickSum(left, p);
    assert PickSum(right, q) == s - a;
  }

  lemma HalvesMakeSum(left: seq<nat>, right: seq<nat>, a: int, b: int)
    requires IsSubsetSum(left, a) && IsSubsetSum(right, b)
    ensures IsSubsetSum(left + right, a + b)
  {
    var p :| |p| == |left| && PickSum(left, p) == a;
    var q :| |q| == |right| && PickSum(right, q) == b;
    PickSumSplits(left, right, p, q);
    assert PickSum(left + right, p + q) == a + b;
  }

  /** `bisect.bisect_right`: how many entries are at or below `x`. */
  method BisectRight(a: seq<int>, x: real) returns (lo: nat)
    requires StrictlySorted(a)
    ensures lo <= |a|
    ensures forall i :: 0 <= i < lo ==> a[i] as real <= x
    ensures forall i :: lo <= i < |a| ==> x < a[i] as real
  {
    lo := 0;
    var hi := |a|;
    while lo < hi
      invariant lo <= hi <= |a|
      invariant forall i :: 0 <= i < lo ==> a[i] as real <= x
      invariant forall i :: hi <= i < |a| ==> x < a[i] as real
    {
      var mid := (lo + hi) / 2;
      if x < a[mid] as real { hi := mid; } else { lo := mid + 1; }
    }
  }

  /** `bisect.bisect_left`: how many entries are strictly below `x`. */
  method BisectLeft(a: seq<int>, x: real) returns (lo: nat)
    requires StrictlySorted(a)
    ensures lo <= |a|
    ensures forall i :: 0 <= i < lo ==> (a[i] as real) < x
    ensures forall i :: lo <= i < |a| ==> x <= a[i] as real
  {
    lo := 0;
    var hi := |a|;
    while lo < hi
      invariant lo <= hi <= |a|
      invariant forall i :: 0 <= i < lo ==> (a[i] as real) < x
      invariant forall i :: hi <= i < |a| ==> x <= a[i] as real
    {
      var mid := (lo + hi) / 2;
      if (a[mid] as real) < x { lo := mid + 1; } else { hi := mid; }
    }
  }

  ghost function SumsOf(amounts: seq<nat>): iset<int> {
    iset s | IsSubsetSum(amounts, s)
  }

  /** The sums of one entry of the left half with every entry of the right half. */
  ghost function Row(a: int, right: seq<int>): iset<int> {
    iset i | 0 <= i < |right| :: a + right[i]
  }

  ghost function Meeting(left: set<int>, right: seq<int>): iset<int> {
    iset a, s | a in left && s in Row(a, right) :: s
  }

  /** `best` is the largest positive sum at or below the target among the sums of `P`. */
  ghost predicate IsNearestBelow(P: iset<int>, target: real, best: Option<int>) {
    match best
    case Some(b) => b in P && 0 < b && b as real <= target
                    && forall s :: s in P && 0 < s && s as real <= target ==> s <= b
    case None => forall s :: s in P && 0 < s ==> target < s as real
  }

  /** `best` is the smallest positive sum at or above the target among the sums of `P`. */
  ghost predicate IsNearestAbove(P: iset<int>, target: real, best: Option<int>) {
    match best
    case Some(b) => b in P && 0 < b && target <= b as real
                    && forall s :: s in P && 0 < s && target <= s as real ==> b <= s
    case None => forall s :: s in P && 0 < s ==> (s as real) < target
  }

  /** The running answer after the entry the left-half sum `a` pairs with just below the target. */
  function BetterBelow(a: int, right: seq<int>, i: nat, best: Option<int>): Option<int>
    requires i <= |right|
  {
    if i != 0 && (a != 0 || right[i - 1] != 0) && (best == None || a + right[i - 1] > best.value)
    then Some(a + right[i - 1]) else best
  }

  function BetterAbove(a: int, right: seq<int>, j: nat, best: Option<int>): Option<int>
    requires j <= |right|
  {
    if j < |right| && (a != 0 || right[j] != 0) && (best == None || a + right[j] < best.value)
    then Some(a + right[j]) else best
  }

  /** One row's best candidate at or below the target either replaces the best so far or changes nothing. */
  lemma RowBelow(P: iset<int>, a: int, right: seq<int>, i: nat, target: real, was: Option<int>)
    requires a >= 0 && StrictlySorted(right) && forall k :: 0 <= k < |right| ==> right[k] >= 0
    requires i <= |right|
    requires forall k :: 0 <= k < i ==> right[k] as real <= target - a as real
    requires forall k :: i <= k < |right| ==> target - a as real < right[k] as real
    requires IsNearestBelow(P, target, was)
    ensures IsNearestBelow(P + Row(a, right), target, BetterBelow(a, right, i, was))
  {
    var now := BetterBelow(a, right, i, was);
    if now != was { assert a + right[i - 1] in Row(a, right); }
    forall s | s in Row(a, right) && 0 < s && s as real <= target
      ensures now.Some? && s <= now.value
    {
      var k :| 0 <= k < |right| && s == a + right[k];
      assert k < i;
      assert right[k] <= right[i - 1];
    }
  }

  lemma RowAbove(P: iset<int>, a: int, right: seq<int>, j: nat, target: real, was: Option<int>)
    requires target > 0.0
    requires a >= 0 && StrictlySorted(right) && forall k :: 0 <= k < |right| ==> right[k] >= 0
    requires j <= |right|
    requires forall k :: 0 <= k < j ==> (right[k] as real) < target - a as real
    requires forall k :: j <= k < |right| ==> target - a as real <= right[k] as real
    requires IsNearestAbove(P, target, was)
    ensures IsNearestAbove(P + Row(a, right), target, BetterAbove(a, right, j, was))
  {
    var now := BetterAbove(a, right, j, was);
    if now != was { assert a + right[j] in Row(a, right); }
    forall s | s in Row(a, right) && 0 < s && target <= s as real
      ensures now.Some? && now.value <= s
    {
      var k :| 0 <= k < |right| && s == a + right[k];
      assert j <= k;
      assert right[j] <= right[k];
    }
  }

  /** `_nearest_subset_sums`. A zero sum is never an answer, so the answers range over the positive
      sums; `LowerAnswerExact` and `UpperAnswerExact` say what that means for the non-empty subsets. */
  method NearestSubsetSums(amounts: seq<nat>, target: real) returns (below: Option<int>, above: Option<int>)
    requires target > 0.0
    ensures IsNearestBelow(SumsOf(amounts), target, below)
    ensures IsNearestAbove(SumsOf(amounts), target, above)
  {
    var half := |amounts| / 2;
    var left := AllSubsetSums(amounts[..half]);
    var rightSet := AllSubsetSums(amounts[half..]);
    var right := Sorted(rightSet);
    below, above := None, None;
    var todo := left;
    while todo != {}
      invariant todo <= left
      invariant IsNearestBelow(Meeting(left - todo, right), target, below)
      invariant IsNearestAbove(Meeting(left - todo, right), target, above)
      decreases todo
    {
      var a := Any(todo);
      ghost var done := left - todo;
      var i := BisectRight(right, target - a as real);
      RowBelow(Meeting(done, right), a, right, i, target, below);
      below := BetterBelow(a, right, i, below);
      var j := BisectLeft(right, target - a as real);
      RowAbove(Meeting(done, right), a, right, j, target, above);
      above := BetterAbove(a, right, j, above);
      todo := todo - {a};
      assert left - todo == done + {a};
      MeetingGrows(done, a, right);
    }
    assert left - todo == left;
    MeetingIsAllSums(amounts, half, left, rightSet, right);
  }

  lemma MeetingGrows(done: set<int>, a: int, right: seq<int>)
    ensures Meeting(done + {a}, right) == Meeting(done, right) + Row(a, right)
  {
    assert forall s :: s in Row(a, right) ==> s in Meeting(done + {a}, right);
  }

  lemma MeetingIsAllSums(amounts: seq<nat>, half: nat, left: set<int>, rightSet: set<int>, right: seq<int>)
    requires half <= |amounts| && Lists(right, rightSet)
    requires forall s :: s in left <==> IsSubsetSum(amounts[..half], s)
    requires forall s :: s in rightSet <==> IsSubsetSum(amounts[half..], s)
    ensures Meeting(left, right) == SumsOf(amounts)
  {
    assert amounts == amounts[..half] + amounts[half..];
    forall s | s in Meeting(left, right) ensures s in SumsOf(amounts) {
      var a: int :| a in left && s in Row(a, right);
      var i :| 0 <= i < |right| && s == a + right[i];
      HalvesMakeSum(amounts[..half], amounts[half..], a, right[i]);
    }
    forall s | s in SumsOf(amounts) ensures s in Meeting(left, right) {
      var a := SumSplitsInHalves(amounts[..half], amounts[half..], s);
      assert s - a in rightSet;
      var i :| 0 <= i < |right| && right[i] == s - a;
      assert a + right[i] in Row(a, right);
    }
  }

  /** A selection that picks some positive amount has a positive sum, and only such a selection has. */
  lemma {:induction false} PickSumPositive(amounts: seq<nat>, pick: seq<bool>)
    requires |pick| == |amounts|
    ensures PickSum(amounts, pick) > 0 <==> exists i :: 0 <= i < |pick| && pick[i] && amounts[i] > 0
  {
    if amounts != [] {
      var n := |amounts| - 1;
      PickSumPositive(amounts[..n], pick[..n]);
      if pick[n] && amounts[n] > 0 { assert PickSum(amounts, pick) > 0; }
    }
  }

  /** `best` is the largest non-empty subset sum at or below the target, zero included. */
  ghost predicate IsLargestNonEmptySum(amounts: seq<nat>, target: real, best: Option<int>) {
    match best
    case Some(b) => IsNonEmptySubsetSum(amounts, b) && b as real <= target
                    && forall s :: IsNonEmptySubsetSum(amounts, s) && s as real <= target ==> s <= b
    case None => forall s :: IsNonEmptySubsetSum(amounts, s) ==> target < s as real
  }

  /** `best` is the smallest non-empty subset sum at or above the target. */
  ghost predicate IsSmallestNonEmptySum(amounts: seq<nat>, target: real, best: Option<int>) {
    match best
    case Some(b) => IsNonEmptySubsetSum(amounts, b) && target <= b as real
                    && forall s :: IsNonEmptySubsetSum(amounts, s) && target <= s as real ==> b <= s
    case None => forall s :: IsNonEmptySubsetSum(amounts, s) ==> (s as real) < target
  }

  lemma PositiveSumsAreNonEmpty(amounts: seq<nat>, s: int)
    requires s > 0
    ensures IsSubsetSum(amounts, s) <==> IsNonEmptySubsetSum(amounts, s)
  {
    if IsSubsetSum(amounts, s) {
      var pick :| |pick| == |amounts| && PickSum(amounts, pick) == s;
      PickSumPositive(amounts, pick);
    }
  }

  /** Zero is a non-empty sum exactly when some amount is zero. */
  lemma ZeroIsNonEmptySum(amounts: seq<nat>)
    ensures IsNonEmptySubsetSum(amounts, 0) <==> exists i :: 0 <= i < |amounts| && amounts[i] == 0
  {
    if IsNonEmptySubsetSum(amounts, 0) {
      var pick :| |pick| == |amounts| && true in pick && PickSum(amounts, pick) == 0;
      PickSumPositive(amounts, pick);
      var i :| 0 <= i < |pick| && pick[i];
      assert amounts[i] == 0;
    }
    if i :| 0 <= i < |amounts| && amounts[i] == 0 {
      var pick := seq(|amounts|, k => k == i);
      PickSumPositive(amounts, pick);
      assert pick[i];
    }
  }

  /** The lower answer is the largest non-empty sum at or below the target exactly when no amount is
      zero or some answer was found: a zero amount's own sum 0 is skipped as if it were the empty subset. */
  lemma LowerAnswerExact(amounts: seq<nat>, target: real, below: Option<int>)
    requires target > 0.0 && IsNearestBelow(SumsOf(amounts), target, below)
    ensures IsLargestNonEmptySum(amounts, target, below)
            <==> below.Some? || forall i :: 0 <= i < |amounts| ==> amounts[i] > 0
  {
    ZeroIsNonEmptySum(amounts);
    forall s | s > 0 ensures s in SumsOf(amounts) <==> IsNonEmptySubsetSum(amounts, s) {
      PositiveSumsAreNonEmpty(amounts, s);
    }
    assert forall s :: IsNonEmptySubsetSum(amounts, s) ==> s >= 0;
    if below == None && exists i :: 0 <= i < |amounts| && amounts[i] == 0 {
      assert IsNonEmptySubsetSum(amounts, 0);
    }
  }

  /** The upper answer is the smallest non-empty sum at or above the target, whatever the amounts. */
  lemma UpperAnswerExact(amounts: seq<nat>, target: real, above: Option<int>)
    requires target > 0.0 && IsNearestAbove(SumsOf(amounts), target, above)
    ensures IsSmallestNonEmptySum(amounts, target, above)
  {
    forall s | s > 0 ensures s in SumsOf(amounts) <==> IsNonEmptySubsetSum(amounts, s) {
      PositiveSumsAreNonEmpty(amounts, s);
    }
    assert forall s :: IsNonEmptySubsetSum(amounts, s) ==> s >= 0;
  }
}
