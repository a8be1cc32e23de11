/** The sort-merge join of two results, with its pool of workers and its cap on the rows. */
module JoinEngine {
  import opened Bags
  import opened Values
  import opened Sorting
  import opened Joins

  /** A query result that is built up row by row. */
  class Result {
    var rows: seq<Row>
    var rowsAffected: nat

    constructor (rows: seq<Row>)
      ensures this.rows == rows && rowsAffected == |rows|
    {
      this.rows := rows;
      rowsAffected := |rows|;
    }
  }

  /** An operator the switch on operators does not name accepts any two values that are not NULL. */
  const Unchecked: Meaning := (_, _, _) => true

  /** The result is within the cap. The cap is only looked at after a row has been added. */
  predicate Within(size: nat, maxrow: int) {
    size == 0 || size <= maxrow
  }

  // ---------------------------------------------------------------- filters of one pair of rows

  predicate OperatorPasses(op: CmpOp, cmp: int) {
    match op
    case Eq => cmp == 0
    case Lt => cmp == -1
    case Gt => cmp == 1
    case Le => cmp != 1
    case Ge => cmp != -1
    case Ne => cmp != 0
    case NullSafeEq => cmp == 0
    case Other(_) => true
  }

  method PassesFilters(n: JoinNode, l: Row, r: Row) returns (passes: bool)
    ensures passes <==> forall k | 0 <= k < |n.cmpFilter| :: FilterHolds(n.cmpFilter[k], l, r, Unchecked)
  {
    for i := 0 to |n.cmpFilter|
      invariant forall k | 0 <= k < i :: FilterHolds(n.cmpFilter[k], l, r, Unchecked)
    {
      var f := n.cmpFilter[i];
      var v1, v2 := Col(l, f.left), Col(r, f.right);
      if f.exchange {
        v1, v2 := v2, v1;
      }
      var cmp := NullsafeCompare(v1, v2);
      var ok := OperatorPasses(f.op, cmp);
      if ok && f.op != NullSafeEq && (Col(l, f.left).Null? || Col(r, f.right).Null?) {
        ok := false;
      }
      if !ok {
        assert !FilterHolds(n.cmpFilter[i], l, r, Unchecked);
        return false;
      }
    }
    return true;
  }

  method AllTrue(l: Row, cols: seq<nat>) returns (ok: bool)
    ensures ok <==> forall k | 0 <= k < |cols| :: CastToBool(Col(l, cols[k]))
  {
    for i := 0 to |cols|
      invariant forall k | 0 <= k < i :: CastToBool(Col(l, cols[k]))
    {
      if !CastToBool(Col(l, cols[i])) {
        return false;
      }
    }
    return true;
  }

  method AllNull(r: Row, cols: seq<nat>) returns (ok: bool)
    ensures ok <==> forall k | 0 <= k < |cols| :: Col(r, cols[k]).Null?
  {
    for i := 0 to |cols|
      invariant forall k | 0 <= k < i :: Col(r, cols[k]).Null?
    {
      if !Col(r, cols[i]).Null? {
        return false;
      }
    }
    return true;
  }

  /** Appends one row; reports whether the cap is now exceeded. */
  method AppendRow(res: Result, row: Row, maxrow: int) returns (exceeded: bool)
    requires res.rowsAffected == |res.rows|
    modifies res
    ensures res.rows == old(res.rows) + [row] && res.rowsAffected == |res.rows|
    ensures exceeded <==> |res.rows| > maxrow
  {
    res.rows := res.rows + [row];
    res.rowsAffected := res.rowsAffected + 1;
    exceeded := |res.rows| > maxrow;
  }

  // ---------------------------------------------------------------- workers on one group of equal keys

  /** A worker holds one left row: not started, before right row `j`, after the last right row,
      or finished. */
  datatype Worker =
    | Ready(l: Row)
    | Scanning(l: Row, j: nat, matched: bool)
    | Closing(l: Row, matched: bool)
    | Finished

  /** The rows of one group: its keys are known to match, so only the residual condition is left. */
  function GroupRow(n: JoinNode, l: Row, right: seq<Row>): (b: multiset<Row>) {
    if exists r | r in right :: Residual(n, l, r, Unchecked)
    then GroupPairs(n, l, right)
    else Unmatched(n, l)
  }

  function GroupPairs(n: JoinNode, l: Row, right: seq<Row>): (b: multiset<Row>) {
    Sum(right, (r: Row) => Pair(n, l, r, Residual(n, l, r, Unchecked)))
  }

  /** The rows a worker has still to deliver. */
  function Remaining(n: JoinNode, right: seq<Row>, w: Worker): (b: multiset<Row>) {
    match w
    case Ready(l) => GroupRow(n, l, right)
    case Scanning(l, j, matched) =>
      var rest := if j <= |right| then right[j..] else [];
      if matched || exists r | r in rest :: Residual(n, l, r, Unchecked)
      then GroupPairs(n, l, rest)
      else Unmatched(n, l)
    case Closing(l, matched) => if matched then multiset{} else Unmatched(n, l)
    case Finished => multiset{}
  }

  function StepsLeft(right: seq<Row>, w: Worker): (s: nat) {
    match w
    case Ready(_) => |right| + 3
    case Scanning(_, j, _) => 2 + if j <= |right| then |right| - j else 0
    case Closing(_, _) => 1
    case Finished => 0
  }

  function Work(right: seq<Row>, ws: seq<Worker>): (s: nat) {
    if ws == [] then 0 else StepsLeft(right, ws[0]) + Work(right, ws[1..])
  }

  lemma {:induction false} WorkUpdate(right: seq<Row>, ws: seq<Worker>, i: nat, w: Worker)
    requires i < |ws| && StepsLeft(right, w) < StepsLeft(right, ws[i])
    ensures Work(right, ws[i := w]) < Work(right, ws)
  {
    if i == 0 {
      assert ws[i := w][1..] == ws[1..];
    } else {
      assert ws[i := w][1..] == ws[1..][i - 1 := w];
      WorkUpdate(right, ws[1..], i - 1, w);
    }
  }

  /** Looking at one right row splits off what that row adds. */
  lemma ScanOne(n: JoinNode, right: seq<Row>, l: Row, j: nat, matched: bool)
    requires j < |right|
    ensures var on := Residual(n, l, right[j], Unchecked);
      Remaining(n, right, Scanning(l, j, matched))
        == Pair(n, l, right[j], on) + Remaining(n, right, Scanning(l, j + 1, matched || on))
  {
    assert right[j..] == [right[j]] + right[j + 1..];
    assert right[j..][1..] == right[j + 1..];
    var on := Residual(n, l, right[j], Unchecked);
    if on {
      assert right[j] in right[j..];
    } else if !matched {
      assert (exists r | r in right[j..] :: Residual(n, l, r, Unchecked))
        <==> (exists r | r in right[j + 1..] :: Residual(n, l, r, Unchecked));
    }
  }

  lemma StartScan(n: JoinNode, right: seq<Row>, l: Row)
    ensures Remaining(n, right, Ready(l))
      == Remaining(n, right, if LeftMatch(n, l) then Scanning(l, 0, false) else Closing(l, false))
  {
    assert right[0..] == right;
  }

  lemma EndScan(n: JoinNode, right: seq<Row>, l: Row, j: nat, matched: bool)
    requires j >= |right|
    ensures Remaining(n, right, Scanning(l, j, matched)) == Remaining(n, right, Closing(l, matched))
  {
  }

  /** A worker only looks at right rows once its own left row has passed. */
  predicate Admitted(n: JoinNode, w: Worker) {
    w.Scanning? ==> LeftMatch(n, w.l)
  }

  /** How the shared result may change while a worker that had to deliver `before` is left with
      `after`: nothing is delivered once the error is set, and the error is set by the row that
      exceeds the cap. */
  ghost predicate Delivered(rows: seq<Row>, rows': seq<Row>, failed: bool, failed': bool, maxrow: int,
                            before: multiset<Row>, after: multiset<Row>)
  {
    && (failed ==> failed' && rows' == rows)
    && (!failed' ==> multiset(rows') + after == multiset(rows) + before)
    && (!failed' ==> rows' == rows || |rows'| <= maxrow)
    && (!failed && failed' ==> |rows'| > maxrow && |rows'| > 0 && multiset(rows') <= multiset(rows) + before)
  }

  /** Delivers `row`, unless the error is already set. */
  method Deliver(res: Result, row: Row, failed: bool, maxrow: int, ghost after: multiset<Row>) returns (failed': bool)
    requires res.rowsAffected == |res.rows|
    modifies res
    ensures res.rowsAffected == |res.rows|
    ensures Delivered(old(res.rows), res.rows, failed, failed', maxrow, multiset{row} + after, after)
  {
    failed' := failed;
    if !failed {
      failed' := AppendRow(res, row, maxrow);
    }
  }

  /** One uninterrupted stretch of a worker: it delivers part of what it has still to deliver. */
  method StepWorker(n: JoinNode, right: seq<Row>, w: Worker, res: Result, failed: bool, maxrow: int)
    returns (w': Worker, failed': bool)
    requires !w.Finished? && Admitted(n, w) && res.rowsAffected == |res.rows|
    modifies res
    ensures Admitted(n, w') && StepsLeft(right, w') < StepsLeft(right, w)
    ensures res.rowsAffected == |res.rows|
    ensures Delivered(old(res.rows), res.rows, failed, failed', maxrow, Remaining(n, right, w), Remaining(n, right, w'))
  {
    failed' := failed;
    match w
    case Ready(l) =>
      if failed {
        w' := Finished;
      } else {
        var leftMatch := AllTrue(l, n.leftTmpCols);
        StartScan(n, right, l);
        w' := if leftMatch then Scanning(l, 0, false) else Closing(l, false);
      }
    case Scanning(l, j, matched) =>
      if j >= |right| {
        EndScan(n, right, l, j, matched);
        w' := Closing(l, matched);
      } else {
        w', failed' := StepScan(n, right, l, j, matched, res, failed, maxrow);
      }
    case Closing(l, matched) =>
      w' := Finished;
      if !matched && n.isLeftJoin && !n.hasRightFilter {
        failed' := Deliver(res, JoinRows(l, NoRow, n.cols), failed, maxrow, multiset{});
      }
  }

  method StepScan(n: JoinNode, right: seq<Row>, l: Row, j: nat, matched: bool, res: Result, failed: bool, maxrow: int)
    returns (w': Worker, failed': bool)
    requires j < |right| && LeftMatch(n, l) && res.rowsAffected == |res.rows|
    modifies res
    ensures Admitted(n, w') && StepsLeft(right, w') < StepsLeft(right, Scanning(l, j, matched))
    ensures res.rowsAffected == |res.rows|
    ensures Delivered(old(res.rows), res.rows, failed, failed', maxrow,
                      Remaining(n, right, Scanning(l, j, matched)), Remaining(n, right, w'))
  {
    failed' := failed;
    ScanOne(n, right, l, j, matched);
    var on := PassesFilters(n, l, right[j]);
    w' := Scanning(l, j + 1, matched || on);
    var deliver := AllNull(right[j], n.rightTmpCols);
    if on && deliver {
      failed' := Deliver(res, JoinRows(l, ARow(right[j]), n.cols), failed, maxrow, Remaining(n, right, w'));
      if !failed && failed' {
        w' := Closing(l, true);
      }
    }
  }

  lemma Then(r0: seq<Row>, r1: seq<Row>, r2: seq<Row>, f1: bool, f2: bool, maxrow: int,
             total: multiset<Row>, before: multiset<Row>, after: multiset<Row>, rest: multiset<Row>)
    requires Delivered(r0, r1, false, f1, maxrow, total, before + rest)
    requires Delivered(r1, r2, f1, f2, maxrow, before, after)
    ensures Delivered(r0, r2, false, f2, maxrow, total, after + rest)
  {
    if !f1 && f2 {
      assert multiset(r2) <= multiset(r1) + (before + rest);
    }
    if !f2 {
      assert multiset(r2) + (after + rest) == multiset(r1) + before + rest == multiset(r1) + (before + rest);
    }
  }

  predicate AllFinished(ws: seq<Worker>) {
    forall i | 0 <= i < |ws| :: ws[i].Finished?
  }

  /** The worker that runs next: the one the schedule names if it can run, else the first that can. */
  function NextWorker(ws: seq<Worker>, schedule: seq<nat>, k: nat): (i: nat)
    requires !AllFinished(ws)
    ensures i < |ws| && !ws[i].Finished?
  {
    if k < |schedule| && schedule[k] < |ws| && !ws[schedule[k]].Finished? then schedule[k]
    else FirstRunnable(ws)
  }

  function FirstRunnable(ws: seq<Worker>): (i: nat)
    requires !AllFinished(ws)
    ensures i < |ws| && !ws[i].Finished?
  {
    if !ws[0].Finished? then 0 else 1 + FirstRunnable(ws[1..])
  }

  /** Joins one group of left rows with the right rows of the same key. Every left row has a worker
      of its own; `schedule` is any order in which the workers get to run. */
  method ConcatLeftAndRight(lrows: seq<Row>, rrows: seq<Row>, n: JoinNode, res: Result, maxrow: int, schedule: seq<nat>)
    returns (failed: bool)
    requires res.rowsAffected == |res.rows|
    modifies res
    ensures res.rowsAffected == |res.rows|
    ensures Delivered(old(res.rows), res.rows, false, failed, maxrow,
                      Sum(lrows, (l: Row) => GroupRow(n, l, rrows)), multiset{})
  {
    var ws := seq(|lrows|, i requires 0 <= i < |lrows| => Ready(lrows[i]));
    ghost var f := (w: Worker) => Remaining(n, rrows, w);
    ReadySum(n, lrows, rrows, ws);
    ghost var total := Sum(ws, f);
    failed := false;
    var k := 0;
    while !AllFinished(ws)
      invariant AllAdmitted(n, ws)
      invariant res.rowsAffected == |res.rows|
      invariant Delivered(old(res.rows), res.rows, false, failed, maxrow, total, Sum(ws, f))
      decreases Work(rrows, ws)
    {
      var i := NextWorker(ws, schedule, k);
      ghost var before := res.rows;
      ghost var failedBefore := failed;
      var w;
      w, failed := StepWorker(n, rrows, ws[i], res, failed, maxrow);
      OthersSum(ws, i, w, f);
      Then(old(res.rows), before, res.rows, failedBefore, failed, maxrow, total, f(ws[i]), f(w), Sum(Without(ws, i), f));
      WorkUpdate(rrows, ws, i, w);
      ws := ws[i := w];
      k := k + 1;
    }
    SumEmpty(ws, f);
  }

  predicate AllAdmitted(n: JoinNode, ws: seq<Worker>) {
    forall i | 0 <= i < |ws| :: Admitted(n, ws[i])
  }

  /** One worker's summand before and after its step, and those of the others. */
  lemma OthersSum(ws: seq<Worker>, i: nat, w: Worker, f: Worker -> multiset<Row>)
    requires i < |ws|
    ensures Sum(ws, f) == f(ws[i]) + Sum(Without(ws, i), f) && Sum(ws[i := w], f) == f(w) + Sum(Without(ws, i), f)
  {
    SumWithout(ws, i, f);
    SumWithout(ws[i := w], i, f);
    assert Without(ws[i := w], i) == Without(ws, i);
  }

  lemma {:induction false} ReadySum(n: JoinNode, lrows: seq<Row>, rrows: seq<Row>, ws: seq<Worker>)
    requires |ws| == |lrows| && forall i | 0 <= i < |ws| :: ws[i] == Ready(lrows[i])
    ensures Sum(ws, (w: Worker) => Remaining(n, rrows, w)) == Sum(lrows, (l: Row) => GroupRow(n, l, rrows))
  {
    if lrows != [] {
      ReadySum(n, lrows[1..], rrows, ws[1..]);
    }
  }

  /** Left rows without a partner. */
  method ConcatLeftAndNil(lrows: seq<Row>, n: JoinNode, res: Result, maxrow: int) returns (failed: bool)
    requires res.rowsAffected == |res.rows|
    modifies res
    ensures res.rowsAffected == |res.rows|
    ensures Delivered(old(res.rows), res.rows, false, failed, maxrow, Sum(lrows, (l: Row) => Unmatched(n, l)), multiset{})
  {
    ghost var f := (l: Row) => Unmatched(n, l);
    failed := false;
    if n.isLeftJoin && !n.hasRightFilter {
      for i := 0 to |lrows|
        invariant !failed && res.rowsAffected == |res.rows|
        invariant Delivered(old(res.rows), res.rows, false, false, maxrow, Sum(lrows, f), Sum(lrows[i..], f))
      {
        ghost var before := res.rows;
        assert lrows[i..][1..] == lrows[i + 1..];
        failed := Deliver(res, JoinRows(lrows[i], NoRow, n.cols), false, maxrow, multiset{});
        Then(old(res.rows), before, res.rows, false, failed, maxrow, Sum(lrows, f), f(lrows[i]), multiset{}, Sum(lrows[i + 1..], f));
        if failed {
          return;
        }
      }
    } else {
      SumEmpty(lrows, f);
    }
  }

  // ---------------------------------------------------------------- runs of equal keys

  function KeyCompare(keys: seq<nat>, a: Row, b: Row): (c: int) {
    RowCompare(keys, Ascending(|keys|), a, b)
  }

  /** Left key against right key. */
  function CrossCompare(n: JoinNode, l: Row, r: Row): (c: int) {
    LexCompare(Key(l, n.leftKeys), Key(r, n.rightKeys), Ascending(|n.leftKeys|))
  }

  predicate KeySorted(rows: seq<Row>, keys: seq<nat>) {
    Sorted(rows, (a, b) => KeyCompare(keys, a, b))
  }

  /** `rows[from..to]` is the run of rows with the key of `rows[from]`: nothing after it has that key. */
  predicate IsRun(rows: seq<Row>, keys: seq<nat>, from: nat, to: nat) {
    && from <= to <= |rows|
    && (from == to ==> to == |rows|)
    && (forall i | from <= i < to :: KeyCompare(keys, rows[from], rows[i]) == 0)
    && (from < to ==> forall i | to <= i < |rows| :: KeyCompare(keys, rows[from], rows[i]) < 0)
  }

  method KeysEqual(a: Row, b: Row, keys: seq<nat>) returns (equal: bool)
    ensures equal <==> KeyCompare(keys, a, b) == 0
  {
    LexZero(Key(a, keys), Key(b, keys), Ascending(|keys|));
    for i := 0 to |keys|
      invariant forall k | 0 <= k < i :: NullsafeCompare(Key(a, keys)[k], Key(b, keys)[k]) == 0
    {
      if NullsafeCompare(Col(a, keys[i]), Col(b, keys[i])) != 0 {
        assert NullsafeCompare(Key(a, keys)[i], Key(b, keys)[i]) != 0;
        return false;
      }
    }
    return true;
  }

  lemma RunEnds(rows: seq<Row>, keys: seq<nat>, from: nat, to: nat)
    requires KeySorted(rows, keys) && from < to <= |rows|
    requires forall i | from <= i < to :: KeyCompare(keys, rows[from], rows[i]) == 0
    requires to < |rows| ==> KeyCompare(keys, rows[from], rows[to]) != 0
    ensures IsRun(rows, keys, from, to)
  {
    forall i | to <= i < |rows| ensures KeyCompare(keys, rows[from], rows[i]) < 0 {
      if to < i {
        LexTransitive(Key(rows[from], keys), Key(rows[to], keys), Key(rows[i], keys), Ascending(|keys|));
      }
    }
  }

  /** The next run of rows with equal keys; no rows when there are none left. */
  method FetchSameKeyRows(rows: seq<Row>, keys: seq<nat>, index: nat) returns (chunk: seq<Row>, next: nat)
    requires KeySorted(rows, keys) && index <= |rows|
    requires keys == [] ==> index == 0 || index == |rows|
    ensures IsRun(rows, keys, index, next) && chunk == rows[index..next]
    ensures keys == [] ==> next == |rows|
  {
    if index >= |rows| {
      return [], index;
    }
    if |keys| == 0 {
      assert rows[0..|rows|] == rows;
      return rows, |rows|;
    }
    var current := rows[index];
    chunk := [current];
    next := index + 1;
    LexZero(Key(current, keys), Key(current, keys), Ascending(|keys|));
    while next < |rows|
      invariant index < next <= |rows| && chunk == rows[index..next]
      invariant forall i | index <= i < next :: KeyCompare(keys, rows[index], rows[i]) == 0
    {
      var equal := KeysEqual(current, rows[next], keys);
      if !equal {
        break;
      }
      chunk := chunk + [rows[next]];
      next := next + 1;
    }
    RunEnds(rows, keys, index, next);
  }

  // ---------------------------------------------------------------- the merge

  predicate NullKey(n: JoinNode, l: Row, r: Row) {
    exists k | 0 <= k < |n.leftKeys| :: Col(l, n.leftKeys[k]).Null? && Col(r, n.rightKeys[k]).Null?
  }

  /** Compares the keys of two runs column by column, stopping at a difference or at a NULL in both. */
  method CompareRuns(n: JoinNode, l: Row, r: Row) returns (cmp: int, isNull: bool)
    ensures isNull ==> cmp == 0 && NullKey(n, l, r)
    ensures !isNull ==> cmp == CrossCompare(n, l, r)
    ensures !isNull && cmp == 0 ==> KeysMatch(n, l, r)
  {
    cmp, isNull := 0, false;
    var asc := Ascending(|n.leftKeys|);
    ghost var kl, kr := Key(l, n.leftKeys), Key(r, n.rightKeys);
    for k := 0 to |n.leftKeys|
      invariant cmp == 0 && !isNull
      invariant CrossCompare(n, l, r) == LexCompare(kl[k..], kr[k..], asc[k..])
      invariant forall i | 0 <= i < k :: SqlEqual(Col(l, n.leftKeys[i]), Col(r, n.rightKeys[i]))
    {
      assert kl[k..][1..] == kl[k + 1..] && kr[k..][1..] == kr[k + 1..] && asc[k..][1..] == asc[k + 1..];
      cmp := NullsafeCompare(Col(l, n.leftKeys[k]), Col(r, n.rightKeys[k]));
      if cmp != 0 {
        return;
      }
      if Col(l, n.leftKeys[k]).Null? {
        isNull := true;
        return;
      }
    }
  }

  lemma MatchIsZero(n: JoinNode, l: Row, r: Row)
    ensures KeysMatch(n, l, r) ==> CrossCompare(n, l, r) == 0
    ensures NullKey(n, l, r) ==> !KeysMatch(n, l, r)
  {
    LexZero(Key(l, n.leftKeys), Key(r, n.rightKeys), Ascending(|n.leftKeys|));
  }

  /** A left row whose key is above a right key does not match it, nor do left rows further up or
      right rows further down. */
  lemma AboveNoMatch(n: JoinNode, l0: Row, r0: Row, l: Row, r: Row)
    requires KeyCompare(n.leftKeys, l0, l) <= 0 && KeyCompare(n.rightKeys, r, r0) <= 0
    requires CrossCompare(n, l0, r0) > 0 || (CrossCompare(n, l0, r0) == 0 && KeyCompare(n.leftKeys, l0, l) < 0)
    ensures !KeysMatch(n, l, r)
  {
    var asc := Ascending(|n.leftKeys|);
    var kl, kl0, kr, kr0 := Key(l, n.leftKeys), Key(l0, n.leftKeys), Key(r, n.rightKeys), Key(r0, n.rightKeys);
    LexAntisymmetric(kl0, kr0, asc);
    LexTransitive(kr, kr0, kl0, asc);
    LexTransitive(kr, kl0, kl, asc);
    LexAntisymmetric(kl, kr, asc);
    MatchIsZero(n, l, r);
  }

  lemma BelowNoMatch(n: JoinNode, l0: Row, r0: Row, l: Row, r: Row)
    requires KeyCompare(n.leftKeys, l0, l) == 0 && KeyCompare(n.rightKeys, r0, r) <= 0
    requires CrossCompare(n, l0, r0) < 0 || (CrossCompare(n, l0, r0) == 0 && KeyCompare(n.rightKeys, r0, r) < 0)
    ensures !KeysMatch(n, l, r)
  {
    var asc := Ascending(|n.leftKeys|);
    var kl, kl0, kr, kr0 := Key(l, n.leftKeys), Key(l0, n.leftKeys), Key(r, n.rightKeys), Key(r0, n.rightKeys);
    LexAntisymmetric(kl0, kl, asc);
    LexTransitive(kl, kl0, kr0, asc);
    LexTransitive(kl, kr0, kr, asc);
    MatchIsZero(n, l, r);
  }

  lemma MatchSpreads(n: JoinNode, l0: Row, r0: Row, l: Row, r: Row)
    requires KeysMatch(n, l0, r0) && KeyCompare(n.leftKeys, l0, l) == 0 && KeyCompare(n.rightKeys, r0, r) == 0
    ensures KeysMatch(n, l, r)
  {
    LexZero(Key(l0, n.leftKeys), Key(l, n.leftKeys), Ascending(|n.leftKeys|));
    LexZero(Key(r0, n.rightKeys), Key(r, n.rightKeys), Ascending(|n.rightKeys|));
    forall k | 0 <= k < |n.leftKeys| ensures SqlEqual(Col(l, n.leftKeys[k]), Col(r, n.rightKeys[k])) {
      assert NullsafeCompare(Key(l0, n.leftKeys)[k], Key(l, n.leftKeys)[k]) == 0;
      assert NullsafeCompare(Key(r0, n.rightKeys)[k], Key(r, n.rightKeys)[k]) == 0;
    }
  }

  /** A key with a NULL matches nothing, and so do equal keys. */
  lemma NullSpreads(n: JoinNode, l0: Row, r0: Row, l: Row, r: Row)
    requires NullKey(n, l0, r0)
    ensures KeyCompare(n.leftKeys, l0, l) == 0 ==> !KeysMatch(n, l, r)
    ensures KeyCompare(n.rightKeys, r0, r) == 0 ==> !KeysMatch(n, l, r)
  {
    var k :| 0 <= k < |n.leftKeys| && Col(l0, n.leftKeys[k]).Null? && Col(r0, n.rightKeys[k]).Null?;
    if KeyCompare(n.leftKeys, l0, l) == 0 {
      LexZero(Key(l0, n.leftKeys), Key(l, n.leftKeys), Ascending(|n.leftKeys|));
      assert NullsafeCompare(Key(l0, n.leftKeys)[k], Key(l, n.leftKeys)[k]) == 0;
    }
    if KeyCompare(n.rightKeys, r0, r) == 0 {
      LexZero(Key(r0, n.rightKeys), Key(r, n.rightKeys), Ascending(|n.rightKeys|));
      assert NullsafeCompare(Key(r0, n.rightKeys)[k], Key(r, n.rightKeys)[k]) == 0;
    }
  }

  /** Left rows from `from` on match no right row before `to`. */
  predicate Apart(n: JoinNode, left: seq<Row>, from: nat, right: seq<Row>, to: nat) {
    forall i, j | from <= i < |left| && 0 <= j < |right| && j < to :: !KeysMatch(n, left[i], right[j])
  }

  /** Where the merge stands: two runs, the left rows from the current run on having no partner
      among the right rows already passed. */
  predicate AtRuns(n: JoinNode, left: seq<Row>, lfrom: nat, lto: nat, right: seq<Row>, rfrom: nat, rto: nat) {
    && IsRun(left, n.leftKeys, lfrom, lto)
    && IsRun(right, n.rightKeys, rfrom, rto)
    && Apart(n, left, lfrom, right, rfrom)
  }

  /** A left run that meets nothing on the right. */
  lemma RunUnmatched(n: JoinNode, left: seq<Row>, from: nat, to: nat, right: seq<Row>)
    requires from <= to <= |left|
    requires forall i, j | from <= i < to && 0 <= j < |right| :: !KeysMatch(n, left[i], right[j])
    ensures Join(n, Unchecked, left[from..], right)
         == Sum(left[from..to], (l: Row) => Unmatched(n, l)) + Join(n, Unchecked, left[to..], right)
  {
    assert left[from..] == left[from..to] + left[to..];
    JoinAppend(n, Unchecked, left[from..to], left[to..], right);
    forall l | l in left[from..to] ensures LeftRowJoin(n, Unchecked, l, right) == Unmatched(n, l) {
      var i :| 0 <= i < to - from && left[from..to][i] == l;
      assert l == left[from + i];
      forall r | r in right ensures !On(n, l, r, Unchecked) {
        var j :| 0 <= j < |right| && right[j] == r;
        assert !KeysMatch(n, left[from + i], right[j]);
      }
    }
    SumPointwise(left[from..to], (l: Row) => LeftRowJoin(n, Unchecked, l, right), (l: Row) => Unmatched(n, l));
  }

  lemma RunMatchedRow(n: JoinNode, left: seq<Row>, lfrom: nat, lto: nat, right: seq<Row>, rfrom: nat, rto: nat, i: nat)
    requires AtRuns(n, left, lfrom, lto, right, rfrom, rto) && lfrom <= i < lto && rfrom < rto
    requires KeysMatch(n, left[lfrom], right[rfrom])
    ensures LeftRowJoin(n, Unchecked, left[i], right) == GroupRow(n, left[i], right[rfrom..rto])
  {
    var l := left[i];
    forall r | r in right[..rfrom] || r in right[rto..] ensures !On(n, l, r, Unchecked) {
      if r in right[..rfrom] {
        var j :| 0 <= j < rfrom && right[j] == r;
        assert !KeysMatch(n, left[i], right[j]);
      } else {
        var j :| 0 <= j < |right| - rto && right[rto..][j] == r;
        assert r == right[rto + j];
        MatchIsZero(n, left[lfrom], right[rfrom]);
        BelowNoMatch(n, left[lfrom], right[rfrom], l, r);
      }
    }
    LeftRowJoinWindow(n, Unchecked, l, right, rfrom, rto);
    forall r | r in right[rfrom..rto] ensures KeysMatch(n, l, r) {
      var j :| 0 <= j < rto - rfrom && right[rfrom..rto][j] == r;
      assert r == right[rfrom + j];
      MatchSpreads(n, left[lfrom], right[rfrom], l, r);
    }
    MatchedGroup(n, l, right[rfrom..rto]);
  }

  /** Among right rows with its key, a left row joins by the other conditions alone. */
  lemma MatchedGroup(n: JoinNode, l: Row, right: seq<Row>)
    requires forall r | r in right :: KeysMatch(n, l, r)
    ensures LeftRowJoin(n, Unchecked, l, right) == GroupRow(n, l, right)
  {
    assert forall r | r in right :: On(n, l, r, Unchecked) == Residual(n, l, r, Unchecked);
    SumPointwise(right, (r: Row) => Pair(n, l, r, On(n, l, r, Unchecked)), (r: Row) => Pair(n, l, r, Residual(n, l, r, Unchecked)));
  }

  /** Two runs with the same key: each left row joins within the right run only. */
  lemma RunMatched(n: JoinNode, left: seq<Row>, lfrom: nat, lto: nat, right: seq<Row>, rfrom: nat, rto: nat)
    requires AtRuns(n, left, lfrom, lto, right, rfrom, rto) && lfrom < lto && rfrom < rto
    requires KeysMatch(n, left[lfrom], right[rfrom])
    ensures Join(n, Unchecked, left[lfrom..], right)
         == Sum(left[lfrom..lto], (l: Row) => GroupRow(n, l, right[rfrom..rto])) + Join(n, Unchecked, left[lto..], right)
  {
    forall l | l in left[lfrom..lto] ensures LeftRowJoin(n, Unchecked, l, right) == GroupRow(n, l, right[rfrom..rto]) {
      var i :| 0 <= i < lto - lfrom && left[lfrom..lto][i] == l;
      RunMatchedRow(n, left, lfrom, lto, right, rfrom, rto, lfrom + i);
    }
    assert left[lfrom..] == left[lfrom..lto] + left[lto..];
    RunSum(n, left[lfrom..lto], left[lto..], right, right[rfrom..rto]);
  }

  lemma RunSum(n: JoinNode, run: seq<Row>, rest: seq<Row>, right: seq<Row>, window: seq<Row>)
    requires forall l | l in run :: LeftRowJoin(n, Unchecked, l, right) == GroupRow(n, l, window)
    ensures Join(n, Unchecked, run + rest, right) == Sum(run, (l: Row) => GroupRow(n, l, window)) + Join(n, Unchecked, rest, right)
  {
    JoinAppend(n, Unchecked, run, rest, right);
    SumPointwise(run, (l: Row) => LeftRowJoin(n, Unchecked, l, right), (l: Row) => GroupRow(n, l, window));
  }

  /** Equal keys, or a NULL in both: nothing further left meets the right run. */
  lemma PassBoth(n: JoinNode, left: seq<Row>, lfrom: nat, lto: nat, right: seq<Row>, rfrom: nat, rto: nat)
    requires AtRuns(n, left, lfrom, lto, right, rfrom, rto) && lfrom < lto && rfrom < rto
    requires KeysMatch(n, left[lfrom], right[rfrom]) || NullKey(n, left[lfrom], right[rfrom])
    ensures Apart(n, left, lto, right, rto)
    ensures NullKey(n, left[lfrom], right[rfrom]) ==>
      forall i, j | lfrom <= i < lto && 0 <= j < |right| :: !KeysMatch(n, left[i], right[j])
  {
    var l0, r0 := left[lfrom], right[rfrom];
    MatchIsZero(n, l0, r0);
    forall i, j | lto <= i < |left| && 0 <= j < |right| && j < rto ensures !KeysMatch(n, left[i], right[j]) {
      if rfrom <= j {
        if NullKey(n, l0, r0) {
          NullSpreads(n, l0, r0, left[i], right[j]);
        } else {
          LexAntisymmetric(Key(r0, n.rightKeys), Key(right[j], n.rightKeys), Ascending(|n.rightKeys|));
          AboveNoMatch(n, l0, r0, left[i], right[j]);
        }
      }
    }
    if NullKey(n, l0, r0) {
      forall i, j | lfrom <= i < lto && 0 <= j < |right| ensures !KeysMatch(n, left[i], right[j]) {
        NullSpreads(n, l0, r0, left[i], right[j]);
      }
    }
  }

  /** The right run is below: no left row from here on meets it. */
  lemma PassRight(n: JoinNode, left: seq<Row>, lfrom: nat, lto: nat, right: seq<Row>, rfrom: nat, rto: nat)
    requires AtRuns(n, left, lfrom, lto, right, rfrom, rto) && lfrom < lto && rfrom < rto
    requires CrossCompare(n, left[lfrom], right[rfrom]) > 0
    ensures Apart(n, left, lfrom, right, rto)
  {
    forall i, j | lfrom <= i < |left| && 0 <= j < |right| && j < rto ensures !KeysMatch(n, left[i], right[j]) {
      if rfrom <= j {
        assert KeyCompare(n.leftKeys, left[lfrom], left[i]) <= 0;
        LexAntisymmetric(Key(right[rfrom], n.rightKeys), Key(right[j], n.rightKeys), Ascending(|n.rightKeys|));
        AboveNoMatch(n, left[lfrom], right[rfrom], left[i], right[j]);
      }
    }
  }

  /** The left run is below: it meets no right row at all. */
  lemma PassLeft(n: JoinNode, left: seq<Row>, lfrom: nat, lto: nat, right: seq<Row>, rfrom: nat, rto: nat)
    requires AtRuns(n, left, lfrom, lto, right, rfrom, rto) && lfrom < lto && rfrom < rto
    requires CrossCompare(n, left[lfrom], right[rfrom]) < 0
    ensures forall i, j | lfrom <= i < lto && 0 <= j < |right| :: !KeysMatch(n, left[i], right[j])
  {
    forall i, j | lfrom <= i < lto && 0 <= j < |right| ensures !KeysMatch(n, left[i], right[j]) {
      if rfrom <= j {
        assert KeyCompare(n.rightKeys, right[rfrom], right[j]) <= 0;
        BelowNoMatch(n, left[lfrom], right[rfrom], left[i], right[j]);
      }
    }
  }

  /** Handles the two current runs: delivers what the left run adds when it can be passed, and says
      which of the runs to pass. */
  method JoinRuns(left: seq<Row>, lfrom: nat, lto: nat, right: seq<Row>, rfrom: nat, rto: nat,
                  n: JoinNode, res: Result, maxrow: int, schedule: seq<nat>)
    returns (failed: bool, cmp: int, ghost added: multiset<Row>)
    requires AtRuns(n, left, lfrom, lto, right, rfrom, rto) && lfrom < lto && rfrom < rto
    requires res.rowsAffected == |res.rows|
    modifies res
    ensures res.rowsAffected == |res.rows|
    ensures Delivered(old(res.rows), res.rows, false, failed, maxrow, added, multiset{})
    ensures Join(n, Unchecked, left[lfrom..], right)
         == added + Join(n, Unchecked, left[if cmp > 0 then lfrom else lto..], right)
    ensures Apart(n, left, if cmp > 0 then lfrom else lto, right, if cmp < 0 then rfrom else rto)
  {
    failed, added := false, multiset{};
    var lrows, rrows := left[lfrom..lto], right[rfrom..rto];
    var isNull;
    cmp, isNull := CompareRuns(n, lrows[0], rrows[0]);
    if cmp == 0 {
      PassBoth(n, left, lfrom, lto, right, rfrom, rto);
      if isNull {
        RunUnmatched(n, left, lfrom, lto, right);
        added := Sum(lrows, (l: Row) => Unmatched(n, l));
        failed := ConcatLeftAndNil(lrows, n, res, maxrow);
      } else {
        RunMatched(n, left, lfrom, lto, right, rfrom, rto);
        added := Sum(lrows, (l: Row) => GroupRow(n, l, rrows));
        failed := ConcatLeftAndRight(lrows, rrows, n, res, maxrow, schedule);
      }
    } else if cmp > 0 {
      PassRight(n, left, lfrom, lto, right, rfrom, rto);
    } else {
      PassLeft(n, left, lfrom, lto, right, rfrom, rto);
      RunUnmatched(n, left, lfrom, lto, right);
      added := Sum(lrows, (l: Row) => Unmatched(n, l));
      failed := ConcatLeftAndNil(lrows, n, res, maxrow);
    }
  }

  /** Joins two sorted results by walking over their runs of equal keys. */
  method MergeJoin(left: seq<Row>, right: seq<Row>, n: JoinNode, res: Result, maxrow: int, schedules: nat -> seq<nat>)
    returns (failed: bool)
    requires KeySorted(left, n.leftKeys) && KeySorted(right, n.rightKeys)
    requires res.rows == [] && res.rowsAffected == 0
    modifies res
    ensures res.rowsAffected == |res.rows|
    ensures Delivered([], res.rows, false, failed, maxrow, Join(n, Unchecked, left, right), multiset{})
  {
    failed := false;
    ghost var total := Join(n, Unchecked, left, right);
    var lfrom, rfrom := 0, 0;
    var lrows, lidx := FetchSameKeyRows(left, n.leftKeys, 0);
    var rrows, ridx := FetchSameKeyRows(right, n.rightKeys, 0);
    assert left[0..] == left;
    while lrows != []
      invariant !failed && res.rowsAffected == |res.rows|
      invariant Standing(n, left, lfrom, lidx, lrows, right, rfrom, ridx, rrows)
      invariant Delivered([], res.rows, false, false, maxrow, total, Join(n, Unchecked, left[lfrom..], right))
      decreases |left| - lfrom + |right| - rfrom
    {
      ghost var before := res.rows;
      if rrows == [] {
        failed := ConcatRest(left, lfrom, right, n, res, maxrow);
        Then([], before, res.rows, false, failed, maxrow, total, Join(n, Unchecked, left[lfrom..], right), multiset{}, multiset{});
        return;
      }
      ghost var added;
      failed, lfrom, lidx, lrows, rfrom, ridx, rrows, added := JoinAndFetch(left, lfrom, lidx, right, rfrom, ridx, n, res, maxrow, schedules(lfrom));
      Then([], before, res.rows, false, failed, maxrow, total, added, multiset{}, Join(n, Unchecked, left[lfrom..], right));
      if failed {
        return;
      }
    }
    assert left[lfrom..] == [];
  }

  /** Where the merge stands, with the rows of the two runs. */
  ghost predicate Standing(n: JoinNode, left: seq<Row>, lfrom: nat, lidx: nat, lrows: seq<Row>, right: seq<Row>, rfrom: nat, ridx: nat, rrows: seq<Row>) {
    && AtRuns(n, left, lfrom, lidx, right, rfrom, ridx)
    && lrows == left[lfrom..lidx] && rrows == right[rfrom..ridx]
    && (n.leftKeys == [] ==> lidx == |left| && ridx == |right|)
  }

  /** Joins the two runs, and fetches the next run of each side that was passed. */
  method JoinAndFetch(left: seq<Row>, lfrom: nat, lidx: nat, right: seq<Row>, rfrom: nat, ridx: nat, n: JoinNode, res: Result, maxrow: int, schedule: seq<nat>)
    returns (failed: bool, lfrom': nat, lidx': nat, lrows: seq<Row>, rfrom': nat, ridx': nat, rrows: seq<Row>, ghost added: multiset<Row>)
    requires KeySorted(left, n.leftKeys) && KeySorted(right, n.rightKeys)
    requires AtRuns(n, left, lfrom, lidx, right, rfrom, ridx) && lfrom < lidx && rfrom < ridx
    requires n.leftKeys == [] ==> lidx == |left| && ridx == |right|
    requires res.rowsAffected == |res.rows|
    modifies res
    ensures res.rowsAffected == |res.rows|
    ensures Delivered(old(res.rows), res.rows, false, failed, maxrow, added, multiset{})
    ensures Standing(n, left, lfrom', lidx', lrows, right, rfrom', ridx', rrows)
    ensures Join(n, Unchecked, left[lfrom..], right) == added + Join(n, Unchecked, left[lfrom'..], right)
    ensures lfrom <= lfrom' && rfrom <= rfrom' && lfrom + rfrom < lfrom' + rfrom'
  {
    var cmp;
    failed, cmp, added := JoinRuns(left, lfrom, lidx, right, rfrom, ridx, n, res, maxrow, schedule);
    lfrom', lidx', lrows := lfrom, lidx, left[lfrom..lidx];
    rfrom', ridx', rrows := rfrom, ridx, right[rfrom..ridx];
    if cmp <= 0 {
      lfrom' := lidx;
      lrows, lidx' := FetchSameKeyRows(left, n.leftKeys, lidx);
    }
    if cmp >= 0 {
      rfrom' := ridx;
      rrows, ridx' := FetchSameKeyRows(right, n.rightKeys, ridx);
    }
  }

  /** The right side is used up: every left row that is left over has no partner. */
  method ConcatRest(left: seq<Row>, lfrom: nat, right: seq<Row>, n: JoinNode, res: Result, maxrow: int)
    returns (failed: bool)
    requires lfrom <= |left| && Apart(n, left, lfrom, right, |right|)
    requires res.rowsAffected == |res.rows|
    modifies res
    ensures res.rowsAffected == |res.rows|
    ensures Delivered(old(res.rows), res.rows, false, failed, maxrow, Join(n, Unchecked, left[lfrom..], right), multiset{})
  {
    RunUnmatched(n, left, lfrom, |left|, right);
    assert left[lfrom..|left|] == left[lfrom..] && left[|left|..] == [];
    failed := ConcatLeftAndNil(left[lfrom..], n, res, maxrow);
  }
}
