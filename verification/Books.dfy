/**
 * The tables that period accounting reads, sums over sets of their rows, and the outer join its
 * queries use.
 */
module Books {
  import opened Basics
  import opened Projection
  import opened Orders
  import opened Numeric

  datatype Books = Books(orders: map<Id, Order>, refunds: map<Id, RefundRow>, payments: map<Id, PaymentRow>)

  /** One merchant and one calendar month, the month as a test on paid_at. */
  datatype Scope = Scope(merchant: Id, inPeriod: Instant -> bool)

  /** The merchant's orders paid in the period. */
  ghost function Sold(b: Books, scope: Scope): set<Id> {
    set id | id in b.orders && b.orders[id].merchant == scope.merchant
             && b.orders[id].paidAt.Some? && scope.inPeriod(b.orders[id].paidAt.value)
  }

  /** COALESCE(asset, 'CKB'). */
  ghost function AssetName(o: Order): string {
    if o.asset.Some? then o.asset.value else "CKB"
  }

  ghost function SoldIn(b: Books, scope: Scope, asset: string): set<Id> {
    set id | id in Sold(b, scope) && AssetName(b.orders[id]) == asset
  }

  ghost function Assets(b: Books, scope: Scope): set<string> {
    set id | id in Sold(b, scope) :: AssetName(b.orders[id])
  }

  // ---- columns and their sums ----

  type Column = map<Id, nat>

  ghost function Sum(col: Column, ids: set<Id>): nat
    requires ids <= col.Keys
    decreases |ids|
  {
    if ids == {} then 0 else
      var x :| x in ids;
      col[x] + Sum(col, ids - {x})
  }

  lemma {:induction false} SumOut(col: Column, ids: set<Id>, x: Id)
    requires ids <= col.Keys && x in ids
    ensures Sum(col, ids) == col[x] + Sum(col, ids - {x})
    decreases |ids|
  {
    var y :| y in ids && Sum(col, ids) == col[y] + Sum(col, ids - {y});
    if x != y {
      SumOut(col, ids - {y}, x);
      SumOut(col, ids - {x}, y);
      assert ids - {y} - {x} == ids - {x} - {y};
    }
  }

  lemma {:induction false} SumIn(col: Column, ids: set<Id>, x: Id)
    requires ids <= col.Keys && x in col && x !in ids
    ensures Sum(col, ids + {x}) == Sum(col, ids) + col[x]
  {
    SumOut(col, ids + {x}, x);
    assert ids + {x} - {x} == ids;
  }

  lemma {:induction false} SumUnion(col: Column, a: set<Id>, b: set<Id>)
    requires a + b <= col.Keys && a !! b
    ensures Sum(col, a + b) == Sum(col, a) + Sum(col, b)
    decreases |b|
  {
    if b == {} {
      assert a + b == a;
    } else {
      var x :| x in b;
      SumUnion(col, a, b - {x});
      SumOut(col, b, x);
      SumOut(col, a + b, x);
      assert a + b - {x} == a + (b - {x});
    }
  }

  lemma {:induction false} SumMonotone(col: Column, col': Column, ids: set<Id>)
    requires ids <= col.Keys && ids <= col'.Keys
    requires forall id :: id in ids ==> col[id] <= col'[id]
    ensures Sum(col, ids) <= Sum(col', ids)
    decreases |ids|
  {
    if ids != {} {
      var x :| x in ids;
      SumOut(col, ids, x);
      SumOut(col', ids, x);
      SumMonotone(col, col', ids - {x});
    }
  }

  lemma {:induction false} SumSame(col: Column, col': Column, ids: set<Id>)
    requires ids <= col.Keys && ids <= col'.Keys
    requires forall id :: id in ids ==> col[id] == col'[id]
    ensures Sum(col, ids) == Sum(col', ids)
  {
    SumMonotone(col, col', ids);
    SumMonotone(col', col, ids);
  }

  /** mustAmount: what is not an amount counts as nothing. */
  function MustAmount(n: Numeric): nat {
    var a := ToAmount(n);
    if a.Ok? then a.value else 0
  }

  function InRange(v: nat): nat {
    if v <= MAX_AMOUNT then v else 0
  }

  /** However the database spells a whole sum, mustAmount yields it, or 0 past the amount range. */
  lemma {:induction false} MustAmountOfASum(n: Numeric, v: nat)
    requires IsNumber(n) && n.exp as int != MIN_EXP && Denotes(n, v)
    ensures MustAmount(n) == InRange(v)
  {
    ToAmountIsExact(n, v);
    if v > MAX_AMOUNT {
      ErrorsSayWhy(n);
    }
  }

  function Clamped(col: Column): Column {
    map id | id in col :: InRange(col[id])
  }

  /** A sum in range has every summand in range; out of range it clamps to nothing. */
  lemma {:induction false} ClampedSum(col: Column, ids: set<Id>)
    requires ids <= col.Keys
    ensures InRange(Sum(col, ids)) <= Sum(Clamped(col), ids)
    ensures InRange(Sum(col, ids)) == Sum(Clamped(col), ids) <==>
      Sum(col, ids) <= MAX_AMOUNT || Sum(Clamped(col), ids) == 0
  {
    if Sum(col, ids) <= MAX_AMOUNT {
      forall id | id in ids
        ensures col[id] <= MAX_AMOUNT
      {
        SumOut(col, ids, id);
      }
      SumSame(col, Clamped(col), ids);
    }
  }

  ghost function Amounts(b: Books): Column {
    map id | id in b.orders :: if b.orders[id].amount.Some? then b.orders[id].amount.value else 0
  }

  ghost function RefundAmounts(b: Books): Column {
    map r | r in b.refunds :: b.refunds[r].amount
  }

  /** What each order was refunded in total: 0 with no refund row. */
  ghost function RefundTotals(b: Books): Column {
    map id | id in b.orders :: Sum(RefundAmounts(b), RowsOf(b.refunds, id))
  }

  // ---- LEFT JOIN ----

  /** Positions of the right rows whose key equals the left row's; NULL equals nothing. */
  function Hits(key: Option<Id>, right: seq<Id>): seq<nat> {
    if right == [] then []
    else if key == Some(right[|right| - 1]) then Hits(key, right[..|right| - 1]) + [|right| - 1]
    else Hits(key, right[..|right| - 1])
  }

  datatype Pair = Pair(left: nat, right: Option<nat>)

  /** The joined rows of one left row: one per hit, or one with a NULL right side. */
  function PairsOf(i: nat, hits: seq<nat>): seq<Pair> {
    if hits == [] then [Pair(i, None)] else seq(|hits|, k requires 0 <= k < |hits| => Pair(i, Some(hits[k])))
  }

  function LeftJoin(left: seq<Option<Id>>, right: seq<Id>): seq<Pair> {
    if left == [] then []
    else LeftJoin(left[..|left| - 1], right) + PairsOf(|left| - 1, Hits(left[|left| - 1], right))
  }

  predicate IsHit(key: Option<Id>, right: seq<Id>, j: nat) {
    j < |right| && key == Some(right[j])
  }

  /** All the right rows with the key are found, in order. */
  lemma {:induction false} HitsAreAll(key: Option<Id>, right: seq<Id>)
    ensures forall j :: j in Hits(key, right) <==> IsHit(key, right, j)
    ensures forall x, y :: 0 <= x < y < |Hits(key, right)| ==> Hits(key, right)[x] < Hits(key, right)[y]
    decreases |right|
  {
    if right == [] {
    } else {
      var init := right[..|right| - 1];
      var hits := Hits(key, init);
      HitsAreAll(key, init);
      forall x | 0 <= x < |hits|
        ensures hits[x] < |right| - 1
      {
        assert IsHit(key, init, hits[x]);
      }
    }
  }

  lemma {:induction false} HitsAreOne(key: Option<Id>, right: seq<Id>)
    requires NoDuplicates(right)
    ensures |Hits(key, right)| <= 1
    ensures |Hits(key, right)| == 1 <==> key.Some? && key.value in right
    ensures |Hits(key, right)| == 1 ==> IsHit(key, right, Hits(key, right)[0])
    decreases |right|
  {
    if right == [] {
    } else {
      HitsAreOne(key, right[..|right| - 1]);
      assert right == right[..|right| - 1] + [right[|right| - 1]];
    }
  }

  /** The one joined row the last left row adds. */
  lemma {:induction false} LastPair(left: seq<Option<Id>>, right: seq<Id>) returns (p: Pair)
    requires NoDuplicates(right) && left != []
    ensures LeftJoin(left, right) == LeftJoin(left[..|left| - 1], right) + [p]
    ensures p.left == |left| - 1 && (p.right.Some? <==> left[|left| - 1].Some? && left[|left| - 1].value in right)
    ensures p.right.Some? ==> IsHit(left[|left| - 1], right, p.right.value)
  {
    var i := |left| - 1;
    var hits := Hits(left[i], right);
    HitsAreOne(left[i], right);
    p := PairsOf(i, hits)[0];
    assert PairsOf(i, hits) == [p];
  }

  /** Pair i is left row i, beside a right row with its key if there is one. */
  predicate Joins(p: Pair, left: seq<Option<Id>>, right: seq<Id>, i: nat)
    requires i < |left|
  {
    && p.left == i && (p.right.Some? <==> left[i].Some? && left[i].value in right)
    && (p.right.Some? ==> IsHit(left[i], right, p.right.value))
  }

  /** Joined against unique keys, every left row appears once, in order, beside its match if there is one. */
  lemma {:induction false} JoinDuplicatesNothing(left: seq<Option<Id>>, right: seq<Id>)
    requires NoDuplicates(right)
    ensures |LeftJoin(left, right)| == |left|
    ensures forall i :: 0 <= i < |left| ==> Joins(LeftJoin(left, right)[i], left, right, i)
    decreases |left|
  {
    if left == [] {
    } else {
      var init := left[..|left| - 1];
      JoinDuplicatesNothing(init, right);
      var p := LastPair(left, right);
      forall i | 0 <= i < |left|
        ensures Joins(LeftJoin(left, right)[i], left, right, i)
      {
        if i < |init| {
          assert Joins(LeftJoin(init, right)[i], init, right, i) && init[i] == left[i];
        }
      }
    }
  }
}
