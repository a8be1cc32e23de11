/** A join node carried out by any of its three strategies computes the same joined table. */
module JoinExecution {
  import opened Bags
  import opened Values
  import opened Sorting
  import opened Joins
  import opened JoinEngine

  /** A run either delivers the whole joined table, or fails because that table exceeds the cap. */
  ghost predicate Outcome(rows: seq<Row>, failed: bool, maxrow: int, expected: multiset<Row>) {
    && (failed <==> !Within(|expected|, maxrow))
    && (!failed ==> multiset(rows) == expected)
  }

  lemma DeliveredAll(rows: seq<Row>, failed: bool, maxrow: int, expected: multiset<Row>)
    requires Delivered([], rows, false, failed, maxrow, expected, multiset{})
    ensures Outcome(rows, failed, maxrow, expected)
  {
    if failed {
      BagSize(multiset(rows), expected);
    } else {
      assert multiset(rows) == multiset(rows) + multiset{} == multiset([]) + expected;
    }
  }

  // ---------------------------------------------------------------- sort-merge

  /** Sorts both results by their keys and merges them. For every schedule of the workers, the
      result is the joined table; it fails exactly when that table is larger than the cap. */
  method SortMergeJoin(lres: Result, rres: Result, res: Result, n: JoinNode, maxrow: int, schedules: nat -> seq<nat>)
    returns (failed: bool)
    requires res != lres && res != rres && lres != rres
    requires res.rows == [] && res.rowsAffected == 0
    modifies lres`rows, rres`rows, res
    ensures multiset(lres.rows) == old(multiset(lres.rows)) && KeySorted(lres.rows, n.leftKeys)
    ensures multiset(rres.rows) == old(multiset(rres.rows)) && KeySorted(rres.rows, n.rightKeys)
    ensures Outcome(res.rows, failed, maxrow, Join(n, Unchecked, old(lres.rows), old(rres.rows)))
    ensures res.rowsAffected == |res.rows|
  {
    RowComparePreorder(n.leftKeys, Ascending(|n.leftKeys|));
    RowComparePreorder(n.rightKeys, Ascending(|n.rightKeys|));
    var lrows := Sort(lres.rows, (a, b) => RowCompare(n.leftKeys, Ascending(|n.leftKeys|), a, b));
    var rrows := Sort(rres.rows, (a, b) => RowCompare(n.rightKeys, Ascending(|n.rightKeys|), a, b));
    lres.rows, rres.rows := lrows, rrows;
    JoinPermutation(n, Unchecked, old(lres.rows), old(rres.rows), lrows, rrows);
    failed := MergeJoin(lrows, rrows, n, res, maxrow, schedules);
    DeliveredAll(res.rows, failed, maxrow, Join(n, Unchecked, lrows, rrows));
  }

  // ---------------------------------------------------------------- cartesian product

  /** The node with every condition taken away. */
  function CrossNode(cols: seq<int>): (n: JoinNode) {
    JoinNode([], [], [], [], [], false, false, cols)
  }

  lemma CrossRow(cols: seq<int>, l: Row, right: seq<Row>)
    ensures LeftRowJoin(CrossNode(cols), Unchecked, l, right)
         == Sum(right, (r: Row) => multiset{JoinRows(l, ARow(r), cols)})
  {
    var n := CrossNode(cols);
    if right != [] {
      assert right[0] in right && On(n, l, right[0], Unchecked);
    }
    SumPointwise(right, (r: Row) => Pair(n, l, r, On(n, l, r, Unchecked)), (r: Row) => multiset{JoinRows(l, ARow(r), cols)});
  }

  lemma ThenOne(r0: seq<Row>, r1: seq<Row>, r2: seq<Row>, failed: bool, maxrow: int, right: seq<Row>, j: nat, f: Row -> multiset<Row>)
    requires j < |right| && Delivered(r0, r1, false, false, maxrow, Sum(right, f), Sum(right[j..], f))
    requires Delivered(r1, r2, false, failed, maxrow, f(right[j]) + multiset{}, multiset{})
    ensures Delivered(r0, r2, false, failed, maxrow, Sum(right, f), Sum(right[j + 1..], f))
    ensures failed ==> Delivered(r0, r2, false, failed, maxrow, Sum(right, f), multiset{})
  {
    SumFrom(right, j, f);
    Then(r0, r1, r2, false, failed, maxrow, Sum(right, f), f(right[j]), multiset{}, Sum(right[j + 1..], f));
  }

  /** One left row with every right row. */
  method ProductRow(l: Row, right: seq<Row>, res: Result, cols: seq<int>, maxrow: int) returns (failed: bool)
    requires res.rowsAffected == |res.rows|
    modifies res
    ensures res.rowsAffected == |res.rows|
    ensures Delivered(old(res.rows), res.rows, false, failed, maxrow, LeftRowJoin(CrossNode(cols), Unchecked, l, right), multiset{})
  {
    failed := false;
    CrossRow(cols, l, right);
    ghost var f := (r: Row) => multiset{JoinRows(l, ARow(r), cols)};
    assert right[0..] == right;
    for j := 0 to |right|
      invariant !failed && res.rowsAffected == |res.rows|
      invariant Delivered(old(res.rows), res.rows, false, false, maxrow, Sum(right, f), Sum(right[j..], f))
    {
      ghost var before := res.rows;
      failed := Deliver(res, JoinRows(l, ARow(right[j]), cols), false, maxrow, multiset{});
      ThenOne(old(res.rows), before, res.rows, failed, maxrow, right, j, f);
      if failed {
        return;
      }
    }
  }

  /** Every left row with every right row: the joined table of a condition that is always TRUE. */
  method CartesianProduct(left: seq<Row>, right: seq<Row>, res: Result, n: JoinNode, maxrow: int) returns (failed: bool)
    requires res.rows == [] && res.rowsAffected == 0
    modifies res
    ensures Outcome(res.rows, failed, maxrow, Join(CrossNode(n.cols), Unchecked, left, right))
    ensures res.rowsAffected == |res.rows|
  {
    failed := false;
    ghost var cross := CrossNode(n.cols);
    ghost var total := Join(cross, Unchecked, left, right);
    assert left[0..] == left;
    for i := 0 to |left|
      invariant !failed && res.rowsAffected == |res.rows|
      invariant Delivered([], res.rows, false, false, maxrow, total, Join(cross, Unchecked, left[i..], right))
    {
      ghost var before := res.rows;
      SumFrom(left, i, (l: Row) => LeftRowJoin(cross, Unchecked, l, right));
      failed := ProductRow(left[i], right, res, n.cols, maxrow);
      Then([], before, res.rows, false, failed, maxrow, total, LeftRowJoin(cross, Unchecked, left[i], right), multiset{},
           Join(cross, Unchecked, left[i + 1..], right));
      if failed {
        DeliveredAll(res.rows, failed, maxrow, total);
        return;
      }
    }
    DeliveredAll(res.rows, failed, maxrow, total);
  }

  // ---------------------------------------------------------------- nested loop

  type Vars = map<string, Value>

  /** The bind variables taken from one left row. */
  function BindRow(vars: map<string, nat>, l: Row): (b: Vars)
    ensures b.Keys == vars.Keys
  {
    map k | k in vars :: Col(l, vars[k])
  }

  /** The right rows that satisfy the ON clause for a left row. */
  function Matching(n: JoinNode, m: Meaning, l: Row, right: seq<Row>): (s: seq<Row>) {
    if right == [] then []
    else (if On(n, l, right[0], m) then [right[0]] else []) + Matching(n, m, l, right[1..])
  }

  lemma {:induction false} MatchingSum(n: JoinNode, m: Meaning, l: Row, right: seq<Row>)
    ensures Sum(Matching(n, m, l, right), (r: Row) => Pair(n, l, r, true)) == Sum(right, (r: Row) => Pair(n, l, r, On(n, l, r, m)))
    ensures Matching(n, m, l, right) == [] <==> forall r | r in right :: !On(n, l, r, m)
  {
    if right != [] {
      MatchingSum(n, m, l, right[1..]);
      var head := if On(n, l, right[0], m) then [right[0]] else [];
      SumAppend(head, Matching(n, m, l, right[1..]), (r: Row) => Pair(n, l, r, true));
      if head != [] {
        SumSingle(right[0], (r: Row) => Pair(n, l, r, true));
      }
    }
  }

  /** The right side evaluated for a left row returns the right rows that satisfy the ON clause. */
  ghost predicate Evaluates(right: Vars -> seq<Row>, outer: Vars, vars: map<string, nat>, n: JoinNode, m: Meaning,
                            l: Row, table: seq<Row>)
  {
    LeftMatch(n, l) ==> multiset(right(outer + BindRow(vars, l))) == multiset(Matching(n, m, l, table))
  }

  /** Delivers the partners of one left row. */
  method Partners(l: Row, rrows: seq<Row>, res: Result, n: JoinNode, maxrow: int) returns (failed: bool)
    requires res.rowsAffected == |res.rows|
    modifies res
    ensures res.rowsAffected == |res.rows|
    ensures Delivered(old(res.rows), res.rows, false, failed, maxrow, Sum(rrows, (r: Row) => Pair(n, l, r, true)), multiset{})
  {
    failed := false;
    ghost var f := (r: Row) => Pair(n, l, r, true);
    assert rrows[0..] == rrows;
    for j := 0 to |rrows|
      invariant !failed && res.rowsAffected == |res.rows|
      invariant Delivered(old(res.rows), res.rows, false, false, maxrow, Sum(rrows, f), Sum(rrows[j..], f))
    {
      ghost var before := res.rows;
      assert rrows[j..][1..] == rrows[j + 1..];
      var ok := AllNull(rrows[j], n.rightTmpCols);
      if ok {
        failed := Deliver(res, JoinRows(l, ARow(rrows[j]), n.cols), false, maxrow, multiset{});
        Then(old(res.rows), before, res.rows, false, failed, maxrow, Sum(rrows, f), f(rrows[j]), multiset{}, Sum(rrows[j + 1..], f));
        if failed {
          return;
        }
      }
    }
  }

  lemma LoopRowSum(n: JoinNode, m: Meaning, l: Row, table: seq<Row>, rrows: seq<Row>)
    requires multiset(rrows) == multiset(Matching(n, m, l, table))
    ensures LeftRowJoin(n, m, l, table) == if rrows == [] then Unmatched(n, l) else Sum(rrows, (r: Row) => Pair(n, l, r, true))
  {
    MatchingSum(n, m, l, table);
    SumPermutation(rrows, Matching(n, m, l, table), (r: Row) => Pair(n, l, r, true));
    assert |rrows| == |multiset(rrows)| && |Matching(n, m, l, table)| == |multiset(Matching(n, m, l, table))|;
  }

  /** One left row of the nested loop: its partners, or itself alone when there are none. */
  method LoopRow(l: Row, right: Vars -> seq<Row>, outer: Vars, vars: map<string, nat>, joinVars: Vars,
                 res: Result, n: JoinNode, maxrow: int, ghost m: Meaning, ghost table: seq<Row>)
    returns (failed: bool, joinVars': Vars)
    requires joinVars.Keys <= vars.Keys && Evaluates(right, outer, vars, n, m, l, table)
    requires res.rowsAffected == |res.rows|
    modifies res
    ensures joinVars'.Keys <= vars.Keys && res.rowsAffected == |res.rows|
    ensures Delivered(old(res.rows), res.rows, false, failed, maxrow, LeftRowJoin(n, m, l, table), multiset{})
  {
    joinVars' := joinVars;
    var leftMatch := AllTrue(l, n.leftTmpCols);
    if leftMatch {
      joinVars' := joinVars + BindRow(vars, l);
      assert joinVars' == BindRow(vars, l);
      var rrows := right(outer + joinVars');
      LoopRowSum(n, m, l, table, rrows);
      if |rrows| > 0 {
        failed := Partners(l, rrows, res, n, maxrow);
        return;
      }
    } else {
      assert LeftRowJoin(n, m, l, table) == Unmatched(n, l);
    }
    SumSingle(l, (l: Row) => Unmatched(n, l));
    failed := ConcatLeftAndNil([l], n, res, maxrow);
  }

  /** The nested loop delivers the joined table, whatever condition the right side evaluates: the
      table the sort-merge join delivers when the condition is the node's own. */
  method ExecBindVars(left: seq<Row>, right: Vars -> seq<Row>, outer: Vars, vars: map<string, nat>,
                      res: Result, n: JoinNode, maxrow: int, ghost m: Meaning, ghost table: seq<Row>)
    returns (failed: bool)
    requires forall l | l in left :: Evaluates(right, outer, vars, n, m, l, table)
    requires res.rows == [] && res.rowsAffected == 0
    modifies res
    ensures Outcome(res.rows, failed, maxrow, Join(n, m, left, table))
    ensures res.rowsAffected == |res.rows|
  {
    failed := false;
    var joinVars: Vars := map[];
    ghost var total := Join(n, m, left, table);
    for i := 0 to |left|
      invariant !failed && res.rowsAffected == |res.rows| && joinVars.Keys <= vars.Keys
      invariant Delivered([], res.rows, false, false, maxrow, total, Join(n, m, left[i..], table))
    {
      ghost var before := res.rows;
      assert left[i..][1..] == left[i + 1..];
      failed, joinVars := LoopRow(left[i], right, outer, vars, joinVars, res, n, maxrow, m, table);
      Then([], before, res.rows, false, failed, maxrow, total, LeftRowJoin(n, m, left[i], table), multiset{},
           Join(n, m, left[i + 1..], table));
      if failed {
        DeliveredAll(res.rows, failed, maxrow, total);
        return;
      }
    }
    DeliveredAll(res.rows, failed, maxrow, total);
  }

  // ---------------------------------------------------------------- the join executor

  datatype Strategy = Cartesian | SortMerge

  /** What the planner keeps for left joins only: left conditions, IS NULL conditions and right filters. */
  predicate PlannedNode(n: JoinNode) {
    !n.isLeftJoin ==> n.leftTmpCols == [] && n.rightTmpCols == [] && !n.hasRightFilter
  }

  /** When the planner chooses the cartesian product. */
  predicate IsCartesian(n: JoinNode) {
    n.leftKeys == [] && n.cmpFilter == [] && !n.isLeftJoin
  }

  /** The executor for the strategies that read both sides whole. */
  method Execute(lres: Result, rres: Result, res: Result, n: JoinNode, strategy: Strategy, maxrow: int, schedules: nat -> seq<nat>)
    returns (failed: bool)
    requires res != lres && res != rres && lres != rres
    requires res.rows == [] && res.rowsAffected == 0
    requires PlannedNode(n) && (strategy == Cartesian ==> IsCartesian(n))
    modifies lres`rows, rres`rows, res
    ensures Outcome(res.rows, failed, maxrow, Join(n, Unchecked, old(lres.rows), old(rres.rows)))
    ensures res.rowsAffected == |res.rows|
  {
    if |lres.rows| == 0 {
      return false;
    }
    if |rres.rows| == 0 {
      assert lres.rows[0..] == lres.rows;
      failed := ConcatRest(lres.rows, 0, rres.rows, n, res, maxrow);
      DeliveredAll(res.rows, failed, maxrow, Join(n, Unchecked, lres.rows, rres.rows));
      return;
    }
    match strategy
    case SortMerge => failed := SortMergeJoin(lres, rres, res, n, maxrow, schedules);
    case Cartesian => failed := CartesianProduct(lres.rows, rres.rows, res, n, maxrow);
  }

  // ---------------------------------------------------------------- operators without a case of their own

  /** Comparison operators the engine knows. */
  predicate Known(op: CmpOp) {
    !op.Other?
  }

  lemma SameOnSameJoin(n: JoinNode, m: Meaning, left: seq<Row>, right: seq<Row>)
    requires forall l: Row, r: Row :: On(n, l, r, Unchecked) == On(n, l, r, m)
    ensures Join(n, Unchecked, left, right) == Join(n, m, left, right)
  {
    forall l: Row ensures LeftRowJoin(n, Unchecked, l, right) == LeftRowJoin(n, m, l, right) {
      SumPointwise(right, (r: Row) => Pair(n, l, r, On(n, l, r, Unchecked)), (r: Row) => Pair(n, l, r, On(n, l, r, m)));
    }
    SumPointwise(left, (l: Row) => LeftRowJoin(n, Unchecked, l, right), (l: Row) => LeftRowJoin(n, m, l, right));
  }

  /** With known operators only, the joined table is the same whatever other operators mean: the
      engine computes what SQL asks for. */
  lemma KnownOperatorsExact(n: JoinNode, m: Meaning, left: seq<Row>, right: seq<Row>)
    requires forall k | 0 <= k < |n.cmpFilter| :: Known(n.cmpFilter[k].op)
    ensures Join(n, Unchecked, left, right) == Join(n, m, left, right)
  {
    forall l: Row, r: Row ensures On(n, l, r, Unchecked) == On(n, l, r, m) {
      assert forall k | 0 <= k < |n.cmpFilter| :: FilterHolds(n.cmpFilter[k], l, r, Unchecked) == FilterHolds(n.cmpFilter[k], l, r, m);
    }
    SameOnSameJoin(n, m, left, right);
  }

  /** The node that compares the first columns of both sides with one operator. */
  function OneFilter(op: CmpOp): (n: JoinNode) {
    JoinNode([], [], [Comparison(0, 0, op, false)], [], [], false, false, [-1, 1])
  }

  /** A comparison across shards by one operator is computed as SQL asks for on all tables exactly
      when the engine knows the operator or the operator never rejects two values that are not NULL.
      `a LIKE b` is of neither kind: its filter is dropped. */
  lemma FilterExact(op: CmpOp, m: Meaning)
    ensures (forall left, right :: Join(OneFilter(op), Unchecked, left, right) == Join(OneFilter(op), m, left, right))
       <==> (Known(op) || forall a: Value, b: Value | a.Val? && b.Val? :: m(op.name, a, b))
  {
    var n := OneFilter(op);
    if Known(op) {
      forall left, right ensures Join(n, Unchecked, left, right) == Join(n, m, left, right) {
        KnownOperatorsExact(n, m, left, right);
      }
    } else if forall a: Value, b: Value | a.Val? && b.Val? :: m(op.name, a, b) {
      forall left, right ensures Join(n, Unchecked, left, right) == Join(n, m, left, right) {
        SameOnSameJoin(n, m, left, right);
      }
    } else {
      var a: Value, b: Value :| a.Val? && b.Val? && !m(op.name, a, b);
      DroppedFilter(op, m, a, b);
    }
  }

  /** Two rows the operator rejects are joined all the same. */
  lemma DroppedFilter(op: CmpOp, m: Meaning, a: Value, b: Value)
    requires op.Other? && a.Val? && b.Val? && !m(op.name, a, b)
    ensures Join(OneFilter(op), Unchecked, [[a]], [[b]]) == multiset{[a, b]}
    ensures Join(OneFilter(op), m, [[a]], [[b]]) == multiset{}
  {
    var n := OneFilter(op);
    SumSingle([a], (l: Row) => LeftRowJoin(n, Unchecked, l, [[b]]));
    SumSingle([a], (l: Row) => LeftRowJoin(n, m, l, [[b]]));
    SumSingle([b], (r: Row) => Pair(n, [a], r, On(n, [a], r, Unchecked)));
    assert FilterHolds(n.cmpFilter[0], [a], [b], Unchecked) && !FilterHolds(n.cmpFilter[0], [a], [b], m);
    assert On(n, [a], [b], Unchecked) && !On(n, [a], [b], m);
    assert [b] in [[b]];
    assert JoinRows([a], ARow([b]), [-1, 1]) == [a, b];
  }

  /** Nested loop and sort-merge agree: both fail or both deliver the same rows. */
  lemma StrategiesAgree(n: JoinNode, m: Meaning, left: seq<Row>, right: seq<Row>, maxrow: int,
                        merged: seq<Row>, mergeFailed: bool, looped: seq<Row>, loopFailed: bool)
    requires forall k | 0 <= k < |n.cmpFilter| :: Known(n.cmpFilter[k].op)
    requires Outcome(merged, mergeFailed, maxrow, Join(n, Unchecked, left, right))
    requires Outcome(looped, loopFailed, maxrow, Join(n, m, left, right))
    ensures mergeFailed == loopFailed
    ensures !mergeFailed ==> multiset(merged) == multiset(looped)
  {
    KnownOperatorsExact(n, m, left, right);
  }
}
