/** The join node of a plan and the relation it stands for: the joined table of section 7.5 of
    SQL-92, on bags of rows. */
module Joins {
  import opened Bags
  import opened Values

  datatype CmpOp = Eq | Lt | Gt | Le | Ge | Ne | NullSafeEq | Other(name: string)

  /** A comparison across the join; `exchange` says its left operand lives on the right side. */
  datatype Comparison = Comparison(left: nat, right: nat, op: CmpOp, exchange: bool)

  datatype RawJoinNode = JoinNode(
    leftKeys: seq<nat>,
    rightKeys: seq<nat>,
    cmpFilter: seq<Comparison>,
    leftTmpCols: seq<nat>,
    rightTmpCols: seq<nat>,
    isLeftJoin: bool,
    hasRightFilter: bool,
    cols: seq<int>)

  /** Key columns are added to both sides together. */
  type JoinNode = n: RawJoinNode | |n.leftKeys| == |n.rightKeys|
    witness JoinNode([], [], [], [], [], false, false, [])

  /** What a comparison operator without a meaning of its own here (LIKE, REGEXP, ...) accepts. */
  type Meaning = (string, Value, Value) -> bool

  /** The comparison `a op b` is TRUE in three-valued logic. */
  predicate SqlCompares(op: CmpOp, a: Value, b: Value, m: Meaning) {
    match op
    case NullSafeEq => (a.Null? && b.Null?) || (a.Val? && b.Val? && a.rank == b.rank)
    case Other(name) => a.Val? && b.Val? && m(name, a, b)
    case Eq => a.Val? && b.Val? && a.rank == b.rank
    case Ne => a.Val? && b.Val? && a.rank != b.rank
    case Lt => a.Val? && b.Val? && a.rank < b.rank
    case Gt => a.Val? && b.Val? && a.rank > b.rank
    case Le => a.Val? && b.Val? && a.rank <= b.rank
    case Ge => a.Val? && b.Val? && a.rank >= b.rank
  }

  predicate FilterHolds(f: Comparison, l: Row, r: Row, m: Meaning) {
    var a, b := Col(l, f.left), Col(r, f.right);
    if f.exchange then SqlCompares(f.op, b, a, m) else SqlCompares(f.op, a, b, m)
  }

  predicate KeysMatch(n: JoinNode, l: Row, r: Row) {
    forall k | 0 <= k < |n.leftKeys| :: SqlEqual(Col(l, n.leftKeys[k]), Col(r, n.rightKeys[k]))
  }

  predicate LeftMatch(n: JoinNode, l: Row) {
    forall k | 0 <= k < |n.leftTmpCols| :: CastToBool(Col(l, n.leftTmpCols[k]))
  }

  /** Everything the ON clause asks for besides the keys. */
  predicate Residual(n: JoinNode, l: Row, r: Row, m: Meaning) {
    LeftMatch(n, l) && forall k | 0 <= k < |n.cmpFilter| :: FilterHolds(n.cmpFilter[k], l, r, m)
  }

  /** The ON clause. */
  predicate On(n: JoinNode, l: Row, r: Row, m: Meaning) {
    KeysMatch(n, l, r) && Residual(n, l, r, m)
  }

  /** `IS NULL` conditions on right columns, applied to joined rows. */
  predicate RightNulls(n: JoinNode, r: Row) {
    forall k | 0 <= k < |n.rightTmpCols| :: Col(r, n.rightTmpCols[k]).Null?
  }

  /** A left row that joins with nothing is kept, extended with NULLs. */
  predicate Outer(n: JoinNode) {
    n.isLeftJoin && !n.hasRightFilter
  }

  datatype MaybeRow = NoRow | ARow(row: Row)

  /** The joined row: column -k is the k-th left column, column k the k-th right one. */
  function JoinRows(l: Row, r: MaybeRow, cols: seq<int>): (row: Row)
    ensures |row| == |cols|
  {
    seq(|cols|, i requires 0 <= i < |cols| =>
      if cols[i] < 0 then Col(l, -cols[i] - 1)
      else if r.ARow? then Col(r.row, cols[i] - 1) else Null)
  }

  /** What one pair of rows adds to the result. */
  function Pair(n: JoinNode, l: Row, r: Row, on: bool): (b: multiset<Row>) {
    if on && RightNulls(n, r) then multiset{JoinRows(l, ARow(r), n.cols)} else multiset{}
  }

  /** What a left row adds when nothing matches it. */
  function Unmatched(n: JoinNode, l: Row): (b: multiset<Row>) {
    if Outer(n) then multiset{JoinRows(l, NoRow, n.cols)} else multiset{}
  }

  /** What one left row adds to a joined table: something for each right row, of which only those that match
      count, or what it adds alone. */
  function OneJoin<T>(on: Row -> bool, add: Row -> multiset<T>, alone: multiset<T>, right: seq<Row>): (b: multiset<T>) {
    if exists r | r in right :: on(r) then Sum(right, add) else alone
  }

  lemma OneJoinPermutation<T>(on: Row -> bool, add: Row -> multiset<T>, alone: multiset<T>, right: seq<Row>, right': seq<Row>)
    requires multiset(right) == multiset(right')
    ensures OneJoin(on, add, alone, right) == OneJoin(on, add, alone, right')
  {
    SumPermutation(right, right', add);
    forall r: Row ensures r in right <==> r in right' {
      SameMembers(right, right', r);
    }
  }

  /** Right rows that do not match may be dropped. */
  lemma OneJoinWindow<T>(on: Row -> bool, add: Row -> multiset<T>, alone: multiset<T>, before: seq<Row>, right: seq<Row>, after: seq<Row>)
    requires forall r | r in before || r in after :: !on(r) && add(r) == multiset{}
    ensures OneJoin(on, add, alone, before + right + after) == OneJoin(on, add, alone, right)
  {
    SumAppend(before + right, after, add);
    SumAppend(before, right, add);
    SumEmpty(before, add);
    SumEmpty(after, add);
    if r :| r in before + right + after && on(r) {
      InEither(before + right, after, r);
      InEither(before, right, r);
      assert r in right;
    }
    if r :| r in right && on(r) {
      InEither(before, right, r);
      InEither(before + right, after, r);
    }
  }

  /** What one left row adds to the result. */
  function LeftRowJoin(n: JoinNode, m: Meaning, l: Row, right: seq<Row>): (b: multiset<Row>) {
    OneJoin((r: Row) => On(n, l, r, m), (r: Row) => Pair(n, l, r, On(n, l, r, m)), Unmatched(n, l), right)
  }

  /** The joined table. */
  function Join(n: JoinNode, m: Meaning, left: seq<Row>, right: seq<Row>): (b: multiset<Row>) {
    Sum(left, (l: Row) => LeftRowJoin(n, m, l, right))
  }

  /** The joined table does not depend on the order of either table. */
  lemma JoinPermutation(n: JoinNode, m: Meaning, left: seq<Row>, right: seq<Row>, left': seq<Row>, right': seq<Row>)
    requires multiset(left) == multiset(left') && multiset(right) == multiset(right')
    ensures Join(n, m, left, right) == Join(n, m, left', right')
  {
    forall l: Row ensures LeftRowJoin(n, m, l, right) == LeftRowJoin(n, m, l, right') {
      OneJoinPermutation((r: Row) => On(n, l, r, m), (r: Row) => Pair(n, l, r, On(n, l, r, m)), Unmatched(n, l), right, right');
    }
    SumPermutation(left, left', (l: Row) => LeftRowJoin(n, m, l, right));
    SumPointwise(left', (l: Row) => LeftRowJoin(n, m, l, right), (l: Row) => LeftRowJoin(n, m, l, right'));
  }

  lemma JoinAppend(n: JoinNode, m: Meaning, left: seq<Row>, more: seq<Row>, right: seq<Row>)
    ensures Join(n, m, left + more, right) == Join(n, m, left, right) + Join(n, m, more, right)
  {
    SumAppend(left, more, (l: Row) => LeftRowJoin(n, m, l, right));
  }

  /** Right rows that cannot match a left row may be dropped for it. */
  lemma LeftRowJoinWindow(n: JoinNode, m: Meaning, l: Row, right: seq<Row>, from: nat, to: nat)
    requires from <= to <= |right|
    requires forall r | r in right[..from] || r in right[to..] :: !On(n, l, r, m)
    ensures LeftRowJoin(n, m, l, right) == LeftRowJoin(n, m, l, right[from..to])
  {
    assert right == right[..from] + right[from..to] + right[to..];
    OneJoinWindow((r: Row) => On(n, l, r, m), (r: Row) => Pair(n, l, r, On(n, l, r, m)), Unmatched(n, l),
                  right[..from], right[from..to], right[to..]);
  }
}
