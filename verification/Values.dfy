/** SQL values, rows, and the comparison that every sort and every join of the proxy is built on. */
module Values {

  /** A column value. A value that is not NULL is known by its place in the comparison order,
      by its boolean reading and by its text; values of the same rank compare equal without
      being the same. Ranks are reals, so any total preorder on values can be laid out this way. */
  datatype Value = Null | Val(rank: real, truth: bool, text: string)

  /** A value that is not NULL. */
  type Known = v: Value | v.Val? witness Val(0.0, false, "0")

  type Row = seq<Value>

  /** The column `i` of a row. The planner only asks for columns a row has. */
  function Col(row: Row, i: int): (v: Value) {
    if 0 <= i < |row| then row[i] else Null
  }

  /** -1, 0 or 1, with NULL least. */
  function NullsafeCompare(a: Value, b: Value): (c: int) {
    match (a, b)
    case (Null, Null) => 0
    case (Null, _) => -1
    case (_, Null) => 1
    case (Val(x, _, _), Val(y, _, _)) => if x < y then -1 else if x == y then 0 else 1
  }

  /** NULL and zero are false. */
  function CastToBool(v: Value): (b: bool) {
    v.Val? && v.truth
  }

  /** Three-valued equality is TRUE. */
  predicate SqlEqual(a: Value, b: Value) {
    a.Val? && b.Val? && a.rank == b.rank
  }

  /** The values a row has in the columns `idxs`. */
  function Key(row: Row, idxs: seq<nat>): (k: seq<Value>)
    ensures |k| == |idxs|
  {
    seq(|idxs|, i requires 0 <= i < |idxs| => Col(row, idxs[i]))
  }

  /** Lexicographic comparison; position `i` is turned round when `desc[i]`. */
  function LexCompare(a: seq<Value>, b: seq<Value>, desc: seq<bool>): (c: int)
    requires |a| == |b| == |desc|
    ensures -1 <= c <= 1
  {
    if a == [] then 0
    else
      var c := NullsafeCompare(a[0], b[0]);
      if c == 0 then LexCompare(a[1..], b[1..], desc[1..])
      else if desc[0] then -c else c
  }

  function Ascending(n: nat): (d: seq<bool>)
    ensures |d| == n
  {
    seq(n, _ => false)
  }

  /** Comparison of two rows by the same columns. */
  function RowCompare(idxs: seq<nat>, desc: seq<bool>, a: Row, b: Row): (c: int)
    requires |idxs| == |desc|
  {
    LexCompare(Key(a, idxs), Key(b, idxs), desc)
  }

  /** A comparison function that is a total preorder. */
  ghost predicate Preorder<T(!new)>(cmp: (T, T) -> int) {
    && (forall x, y :: cmp(x, y) == -cmp(y, x))
    && (forall x, y, z :: cmp(x, y) <= 0 && cmp(y, z) <= 0 ==> cmp(x, z) <= 0)
  }

  lemma {:induction false} LexAntisymmetric(a: seq<Value>, b: seq<Value>, desc: seq<bool>)
    requires |a| == |b| == |desc|
    ensures LexCompare(a, b, desc) == -LexCompare(b, a, desc)
  {
    if a != [] {
      LexAntisymmetric(a[1..], b[1..], desc[1..]);
    }
  }

  lemma {:induction false} LexTransitive(a: seq<Value>, b: seq<Value>, c: seq<Value>, desc: seq<bool>)
    requires |a| == |b| == |c| == |desc|
    requires LexCompare(a, b, desc) <= 0 && LexCompare(b, c, desc) <= 0
    ensures LexCompare(a, c, desc) <= 0
    ensures LexCompare(a, c, desc) == 0 ==> LexCompare(a, b, desc) == 0 && LexCompare(b, c, desc) == 0
  {
    if a != [] {
      if NullsafeCompare(a[0], b[0]) == 0 && NullsafeCompare(b[0], c[0]) == 0 {
        LexTransitive(a[1..], b[1..], c[1..], desc[1..]);
      }
    }
  }

  /** Keys are equal for a sort exactly when they are equal column by column. */
  lemma {:induction false} LexZero(a: seq<Value>, b: seq<Value>, desc: seq<bool>)
    requires |a| == |b| == |desc|
    ensures LexCompare(a, b, desc) == 0 <==> forall i | 0 <= i < |a| :: NullsafeCompare(a[i], b[i]) == 0
  {
    if a != [] {
      LexZero(a[1..], b[1..], desc[1..]);
      if forall i | 0 <= i < |a| :: NullsafeCompare(a[i], b[i]) == 0 {
        forall i | 0 <= i < |a[1..]| ensures NullsafeCompare(a[1..][i], b[1..][i]) == 0 {
          assert NullsafeCompare(a[i + 1], b[i + 1]) == 0;
        }
      }
      if LexCompare(a, b, desc) == 0 {
        forall i | 0 <= i < |a| ensures NullsafeCompare(a[i], b[i]) == 0 {
          if i > 0 {
            assert NullsafeCompare(a[1..][i - 1], b[1..][i - 1]) == 0;
          }
        }
      }
    }
  }

  /** Sorting rows by any list of columns and directions is sorting by a total preorder. */
  lemma RowComparePreorder(idxs: seq<nat>, desc: seq<bool>)
    requires |idxs| == |desc|
    ensures Preorder((a, b) => RowCompare(idxs, desc, a, b))
  {
    forall a: Row, b: Row
      ensures RowCompare(idxs, desc, a, b) == -RowCompare(idxs, desc, b, a)
    {
      LexAntisymmetric(Key(a, idxs), Key(b, idxs), desc);
    }
    forall a: Row, b: Row, c: Row
      | RowCompare(idxs, desc, a, b) <= 0 && RowCompare(idxs, desc, b, c) <= 0
      ensures RowCompare(idxs, desc, a, c) <= 0
    {
      LexTransitive(Key(a, idxs), Key(b, idxs), Key(c, idxs), desc);
    }
  }

  /** The row without some of its columns. */
  function RemoveColumns(row: Row, removed: set<nat>): (r: Row) {
    if row == [] then []
    else RemoveColumns(row[..|row| - 1], removed) + if |row| - 1 in removed then [] else [row[|row| - 1]]
  }

  function Visible(rows: seq<Row>, removed: set<nat>): (r: seq<Row>)
    ensures |r| == |rows|
  {
    seq(|rows|, i requires 0 <= i < |rows| => RemoveColumns(rows[i], removed))
  }
}
