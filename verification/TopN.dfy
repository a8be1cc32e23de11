/** ORDER BY and LIMIT over shards: each shard sorts and cuts, the answers are put together, sorted and
    cut again. */
module TopN {
  import opened Text
  import opened Bags
  import opened Values
  import opened Sorting
  import opened HashPartition

  type Cmp = (Row, Row) -> int

  function Min(a: int, b: int): (m: int) {
    if a < b then a else b
  }

  /** 64-bit addition. */
  function Wrap(n: int): (w: int) {
    if n > MaxInt then n - 2 * (MaxInt + 1) else if n < -MaxInt - 1 then n + 2 * (MaxInt + 1) else n
  }

  // ---------------------------------------------------------------- the limit plan

  /** The LIMIT clause of a select: an offset and a row count, each of which may be missing. */
  class LimitPlan {
    var offset: int
    var limit: int
    var rewritten: int

    constructor ()
      ensures offset == 0 && limit == 0 && rewritten == 0
    {
      offset, limit, rewritten := 0, 0, 0;
    }

    /** Reads the clause and makes the one for the shards: no offset, and as many rows as both numbers
        together. The sum is right exactly when it fits in 64 bits. */
    method Build(offsetVal: Option<Literal>, countVal: Option<Literal>) returns (ok: bool)
      requires offset == 0 && limit == 0
      modifies this
      ensures ok ==> (offsetVal.Some? ==> offsetVal.value.kind == IntVal && Atoi(offsetVal.value.text) == Some(offset))
      ensures ok ==> (countVal.Some? ==> countVal.value.kind == IntVal && Atoi(countVal.value.text) == Some(limit))
      ensures ok ==> (offsetVal.None? ==> offset == 0) && (countVal.None? ==> limit == 0)
      ensures ok ==> offset <= MaxInt && limit <= MaxInt && rewritten == Wrap(offset + limit)
      ensures ok && 0 <= offset && 0 <= limit ==> (rewritten == offset + limit <==> offset + limit <= MaxInt)
      ensures ok && 0 <= offset && 0 <= limit && rewritten != offset + limit ==> rewritten < 0
      ensures !ok ==> Refused(offsetVal) || Refused(countVal)
      ensures Refused(offsetVal) || Refused(countVal) ==> !ok
    {
      if (offsetVal.Some? && offsetVal.value.kind != IntVal) || (countVal.Some? && countVal.value.kind != IntVal) {
        return false;
      }
      if offsetVal.Some? {
        var out := Atoi(offsetVal.value.text);
        if out.None? {
          return false;
        }
        offset := out.value;
      }
      if countVal.Some? {
        var out := Atoi(countVal.value.text);
        if out.None? {
          return false;
        }
        limit := out.value;
      }
      AtoiFits(offsetVal);
      AtoiFits(countVal);
      rewritten := Wrap(offset + limit);
      return true;
    }
  }

  /** LIMIT 1, 9223372036854775807 asks the shards for a negative number of rows, and slicing the answers panics. */
  method SumWraps(rows: seq<Row>) returns (rewritten: int, r: Option<seq<Row>>)
    ensures rewritten == -MaxInt - 1 && r.None?
  {
    AtoiItoa(1);
    AtoiItoa(MaxInt);
    var plan := new LimitPlan();
    var ok := plan.Build(Some(Literal(IntVal, Itoa(1))), Some(Literal(IntVal, Itoa(MaxInt))));
    rewritten := plan.rewritten;
    r := Limit(rows, plan.offset, plan.limit);
  }

  predicate Refused(v: Option<Literal>) {
    v.Some? && (v.value.kind != IntVal || Atoi(v.value.text).None?)
  }

  lemma AtoiFits(v: Option<Literal>)
    requires !Refused(v)
    ensures v.Some? ==> Atoi(v.value.text).value <= MaxInt
  {
  }

  /** Cuts the rows to the clause; none stands for the panic of a slice whose end wraps round to before its start. */
  method Limit(rows: seq<Row>, offset: int, limit: int) returns (r: Option<seq<Row>>)
    requires 0 <= offset <= MaxInt && 0 <= limit <= MaxInt
    ensures r.Some? <==> offset + limit <= MaxInt
    ensures r.Some? ==> r.value == Window(rows, offset, limit)
  {
    var start, end := offset, Wrap(offset + limit);
    if start > |rows| {
      start := |rows|;
    }
    if end > |rows| {
      end := |rows|;
    }
    if end < start {
      return None;
    }
    return Some(rows[start..end]);
  }

  /** The rows from `offset` on, `limit` of them, as far as there are any. */
  function Window(rows: seq<Row>, offset: nat, limit: nat): (w: seq<Row>) {
    rows[Min(offset, |rows|)..Min(offset + limit, |rows|)]
  }

  // ---------------------------------------------------------------- shards

  /** All rows in some order that is sorted; ties come in any order. */
  ghost predicate SortedAs(s: seq<Row>, bag: multiset<Row>, cmp: Cmp) {
    multiset(s) == bag && Sorted(s, cmp)
  }

  /** A shard's answer to `ORDER BY ... LIMIT n`. */
  ghost predicate Answers(r: seq<Row>, rows: seq<Row>, n: nat, cmp: Cmp) {
    exists s :: SortedAs(s, multiset(rows), cmp) && r == s[..Min(n, |s|)]
  }

  /** What the shards kept back. */
  ghost predicate KeptBack(answers: seq<seq<Row>>, shards: seq<seq<Row>>, back: seq<Row>, n: nat, cmp: Cmp) {
    && multiset(Concat(shards)) == multiset(Concat(answers)) + multiset(back)
    && forall d | d in back :: exists i | 0 <= i < |answers| :: |answers[i]| == n && NotAbove(answers[i], d, cmp)
  }

  ghost predicate NotAbove(rows: seq<Row>, d: Row, cmp: Cmp) {
    forall x | x in rows :: cmp(x, d) <= 0
  }

  lemma OneKeptBack(r: seq<Row>, rows: seq<Row>, n: nat, cmp: Cmp) returns (back: seq<Row>)
    requires Answers(r, rows, n, cmp)
    ensures multiset(rows) == multiset(r) + multiset(back)
    ensures back != [] ==> |r| == n
    ensures forall d | d in back :: NotAbove(r, d, cmp)
  {
    var s :| SortedAs(s, multiset(rows), cmp) && r == s[..Min(n, |s|)];
    back := s[Min(n, |s|)..];
    assert s == r + back;
    CutSorted(s, Min(n, |s|), cmp);
  }

  lemma CutSorted(s: seq<Row>, k: nat, cmp: Cmp)
    requires k <= |s| && Sorted(s, cmp)
    ensures forall d | d in s[k..] :: NotAbove(s[..k], d, cmp)
  {
    forall d, x | d in s[k..] && x in s[..k] ensures cmp(x, d) <= 0 {
      var i :| 0 <= i < k && s[i] == x;
      var j :| k <= j < |s| && s[j] == d;
    }
  }

  lemma {:induction false} AllKeptBack(answers: seq<seq<Row>>, shards: seq<seq<Row>>, n: nat, cmp: Cmp) returns (back: seq<Row>)
    requires |answers| == |shards| && forall i | 0 <= i < |shards| :: Answers(answers[i], shards[i], n, cmp)
    ensures KeptBack(answers, shards, back, n, cmp)
    decreases |shards|
  {
    if shards == [] {
      back := [];
    } else {
      var k := |shards| - 1;
      var before := AllKeptBack(answers[..k], shards[..k], n, cmp);
      var last := OneKeptBack(answers[k], shards[k], n, cmp);
      back := before + last;
      forall d | d in back ensures exists i | 0 <= i < |answers| :: |answers[i]| == n && NotAbove(answers[i], d, cmp) {
        if d in last {
          assert |answers[k]| == n && NotAbove(answers[k], d, cmp);
        } else {
          var i :| 0 <= i < k && |answers[..k][i]| == n && NotAbove(answers[..k][i], d, cmp);
          assert |answers[i]| == n && NotAbove(answers[i], d, cmp);
        }
      }
    }
  }

  lemma {:induction false} AnswerInside(answers: seq<seq<Row>>, i: nat)
    requires i < |answers|
    ensures multiset(answers[i]) <= multiset(Concat(answers))
    decreases |answers|
  {
    if i < |answers| - 1 {
      AnswerInside(answers[..|answers| - 1], i);
    }
  }

  /** With `n` rows that are not above `d`, the first `n` of a sorted list are not above `d`. */
  lemma FirstNotAbove(m: seq<Row>, r: seq<Row>, d: Row, cmp: Cmp, j: nat)
    requires Preorder(cmp) && Sorted(m, cmp) && multiset(r) <= multiset(m) && NotAbove(r, d, cmp) && j < |m| && j < |r|
    ensures cmp(m[j], d) <= 0
  {
    if cmp(m[j], d) > 0 {
      forall x | x in r ensures x !in m[j..] {
        NotFurtherOn(m, j, d, x, cmp);
      }
      AllBefore(m, j, r);
    }
  }

  lemma AllBefore(m: seq<Row>, j: nat, r: seq<Row>)
    requires j <= |m| && multiset(r) <= multiset(m) && forall x | x in r :: x !in m[j..]
    ensures |r| <= j
  {
    assert m == m[..j] + m[j..];
    assert forall x :: x in multiset(m[j..]) <==> x in m[j..];
    assert forall x :: x in multiset(r) <==> x in r;
    assert multiset(r) <= multiset(m[..j]);
    BagSize(multiset(r), multiset(m[..j]));
  }

  lemma AboveStays(m: seq<Row>, j: nat, k: nat, d: Row, cmp: Cmp)
    requires Preorder(cmp) && Sorted(m, cmp) && j <= k < |m| && cmp(m[j], d) > 0
    ensures cmp(m[k], d) > 0
  {
    assert j < k ==> cmp(m[j], m[k]) <= 0;
  }

  lemma NotFurtherOn(m: seq<Row>, j: nat, d: Row, x: Row, cmp: Cmp)
    requires Preorder(cmp) && Sorted(m, cmp) && j < |m| && cmp(m[j], d) > 0 && cmp(x, d) <= 0
    ensures x !in m[j..]
  {
    forall k | j <= k < |m| ensures m[k] != x {
      AboveStays(m, j, k, d, cmp);
    }
  }

  lemma SortedConcat(a: seq<Row>, b: seq<Row>, cmp: Cmp)
    requires Sorted(a, cmp) && Sorted(b, cmp) && forall x, y | x in a && y in b :: cmp(x, y) <= 0
    ensures Sorted(a + b, cmp)
  {
    forall i, j | 0 <= i < j < |a + b| ensures cmp((a + b)[i], (a + b)[j]) <= 0 {
      if i < |a| <= j {
        assert a[i] in a && b[j - |a|] in b;
      }
    }
  }

  /** The rows of a sequence, sorted. */
  lemma {:induction false} SortedExists(rows: seq<Row>, cmp: Cmp) returns (s: seq<Row>)
    requires Preorder(cmp)
    ensures SortedAs(s, multiset(rows), cmp)
    decreases |rows|
  {
    if rows == [] {
      s := [];
    } else {
      var n := |rows| - 1;
      var t := SortedExists(rows[..n], cmp);
      var i := Place(t, rows[n], cmp);
      s := t[..i] + [rows[n]] + t[i..];
      InsertKeepsOrder(t, i, rows[n], cmp);
      assert t == t[..i] + t[i..];
      assert rows == rows[..n] + [rows[n]];
    }
  }

  lemma BelowLast(t: seq<Row>, x: Row, cmp: Cmp)
    requires Preorder(cmp) && Sorted(t, cmp) && t != [] && cmp(t[|t| - 1], x) <= 0
    ensures forall k | 0 <= k < |t| :: cmp(t[k], x) <= 0
  {
    forall k | 0 <= k < |t| ensures cmp(t[k], x) <= 0 {
      assert k < |t| - 1 ==> cmp(t[k], t[|t| - 1]) <= 0;
    }
  }

  lemma {:induction false} Place(t: seq<Row>, x: Row, cmp: Cmp) returns (i: nat)
    requires Preorder(cmp) && Sorted(t, cmp)
    ensures i <= |t|
    ensures forall k | 0 <= k < i :: cmp(t[k], x) <= 0
    ensures forall k | i <= k < |t| :: cmp(x, t[k]) <= 0
    decreases |t|
  {
    if t == [] {
      i := 0;
    } else if cmp(t[|t| - 1], x) <= 0 {
      i := |t|;
      BelowLast(t, x, cmp);
    } else {
      i := Place(t[..|t| - 1], x, cmp);
      assert cmp(x, t[|t| - 1]) == -cmp(t[|t| - 1], x);
    }
  }

  /** The sorted answers begin with the first rows of all rows, sorted. */
  lemma TopRows(answers: seq<seq<Row>>, shards: seq<seq<Row>>, m: seq<Row>, n: nat, cmp: Cmp) returns (s: seq<Row>)
    requires Preorder(cmp) && |answers| == |shards| && forall i | 0 <= i < |shards| :: Answers(answers[i], shards[i], n, cmp)
    requires SortedAs(m, multiset(Concat(answers)), cmp)
    ensures SortedAs(s, multiset(Concat(shards)), cmp)
    ensures s[..Min(n, |s|)] == m[..Min(n, |m|)]
  {
    var back := AllKeptBack(answers, shards, n, cmp);
    if back == [] {
      s := m;
    } else {
      EnoughRows(answers, back, m, n, cmp);
      var rest := SortedExists(m[n..] + back, cmp);
      s := m[..n] + rest;
      RestAdded(m, n, rest, back);
      RestNotBelow(answers, back, m, n, cmp, rest);
      SortedConcat(m[..n], rest, cmp);
    }
  }

  lemma RestAdded(m: seq<Row>, n: nat, rest: seq<Row>, back: seq<Row>)
    requires n <= |m| && multiset(rest) == multiset(m[n..] + back)
    ensures multiset(m[..n] + rest) == multiset(m) + multiset(back) && (m[..n] + rest)[..n] == m[..n]
    ensures n <= |m[..n] + rest|
  {
    assert m == m[..n] + m[n..];
  }

  lemma RestNotBelow(answers: seq<seq<Row>>, back: seq<Row>, m: seq<Row>, n: nat, cmp: Cmp, rest: seq<Row>)
    requires Preorder(cmp) && Sorted(m, cmp) && multiset(m) == multiset(Concat(answers)) && n <= |m|
    requires forall d | d in back :: exists i | 0 <= i < |answers| :: |answers[i]| == n && NotAbove(answers[i], d, cmp)
    requires multiset(rest) == multiset(m[n..] + back)
    ensures forall x, y | x in m[..n] && y in rest :: cmp(x, y) <= 0
  {
    forall x, y | x in m[..n] && y in rest ensures cmp(x, y) <= 0 {
      SameMembers(rest, m[n..] + back, y);
      InEither(m[n..], back, y);
      FirstRowsLow(answers, back, m, n, cmp, x, y);
    }
  }

  lemma EnoughRows(answers: seq<seq<Row>>, back: seq<Row>, m: seq<Row>, n: nat, cmp: Cmp)
    requires back != [] && multiset(m) == multiset(Concat(answers))
    requires forall d | d in back :: exists i | 0 <= i < |answers| :: |answers[i]| == n && NotAbove(answers[i], d, cmp)
    ensures n <= |m|
  {
    assert back[0] in back;
    var i :| 0 <= i < |answers| && |answers[i]| == n && NotAbove(answers[i], back[0], cmp);
    AnswerInside(answers, i);
    BagSize(multiset(answers[i]), multiset(m));
  }

  lemma FirstRowsLow(answers: seq<seq<Row>>, back: seq<Row>, m: seq<Row>, n: nat, cmp: Cmp, x: Row, y: Row)
    requires Preorder(cmp) && Sorted(m, cmp) && multiset(m) == multiset(Concat(answers)) && n <= |m|
    requires forall d | d in back :: exists i | 0 <= i < |answers| :: |answers[i]| == n && NotAbove(answers[i], d, cmp)
    requires x in m[..n] && (y in m[n..] || y in back)
    ensures cmp(x, y) <= 0
  {
    var j :| 0 <= j < n && m[..n][j] == x;
    if y in m[n..] {
      var k :| 0 <= k < |m[n..]| && m[n..][k] == y;
      assert cmp(m[j], m[n + k]) <= 0;
    } else {
      var i :| 0 <= i < |answers| && |answers[i]| == n && NotAbove(answers[i], y, cmp);
      AnswerInside(answers, i);
      FirstNotAbove(m, answers[i], y, cmp, j);
    }
  }

  // ---------------------------------------------------------------- the result

  /** A result: its field names, with their tables, and its rows. */
  datatype FieldName = FieldName(table: string, name: string)

  datatype OrderBy = OrderBy(table: string, field: string, desc: bool)

  predicate Named(f: FieldName, o: OrderBy) {
    f.name == o.field && (o.table == "" || o.table == f.table)
  }

  /** The columns to sort by: for each order the first field of its name. */
  ghost predicate Located(fields: seq<FieldName>, orders: seq<OrderBy>, idxs: seq<nat>) {
    |idxs| == |orders| && forall k | 0 <= k < |orders| ::
      idxs[k] < |fields| && Named(fields[idxs[k]], orders[k]) && forall i | 0 <= i < idxs[k] :: !Named(fields[i], orders[k])
  }

  /** Some order has no field of its name. */
  ghost predicate Missing(fields: seq<FieldName>, orders: seq<OrderBy>) {
    exists k | 0 <= k < |orders| :: NoneNamed(fields, orders[k])
  }

  ghost predicate NoneNamed(fields: seq<FieldName>, o: OrderBy) {
    forall f | f in fields :: !Named(f, o)
  }

  function Directions(orders: seq<OrderBy>): (d: seq<bool>)
    ensures |d| == |orders|
  {
    seq(|orders|, i requires 0 <= i < |orders| => orders[i].desc)
  }

  method Locate(fields: seq<FieldName>, orders: seq<OrderBy>) returns (idxs: Option<seq<nat>>)
    ensures idxs.Some? ==> Located(fields, orders, idxs.value)
    ensures idxs.None? ==> Missing(fields, orders)
  {
    var found: seq<nat> := [];
    for k := 0 to |orders|
      invariant Located(fields, orders[..k], found)
    {
      var i := 0;
      while i < |fields| && !Named(fields[i], orders[k])
        invariant 0 <= i <= |fields| && forall j | 0 <= j < i :: !Named(fields[j], orders[k])
      {
        i := i + 1;
      }
      if i == |fields| {
        assert NoneNamed(fields, orders[k]);
        return None;
      }
      found := found + [i];
    }
    assert orders[..|orders|] == orders;
    return Some(found);
  }

  /** Lexicographic comparison by the located columns and their directions. */
  function By(idxs: seq<nat>, desc: seq<bool>): (cmp: Cmp)
    requires |idxs| == |desc|
  {
    (a, b) => RowCompare(idxs, desc, a, b)
  }

  lemma ByPreorder(idxs: seq<nat>, desc: seq<bool>)
    requires |idxs| == |desc|
    ensures Preorder(By(idxs, desc))
  {
    RowComparePreorder(idxs, desc);
  }

  /** The rows are sorted by the columns the orders name. */
  ghost predicate InOrder(fields: seq<FieldName>, orders: seq<OrderBy>, rows: seq<Row>) {
    forall idxs | Located(fields, orders, idxs) :: Sorted(rows, By(idxs, Directions(orders)))
  }

  /** The rows a result holds while the operators work on it. */
  class Result {
    const fields: seq<FieldName>
    var rows: seq<Row>

    constructor (fields: seq<FieldName>, rows: seq<Row>)
      ensures this.fields == fields && this.rows == rows
    {
      this.fields, this.rows := fields, rows;
    }

    /** Sorts the rows, and drops the columns that were asked for only to sort by. A field that is not
        there is reported once there are rows to compare. */
    method Order(orders: seq<OrderBy>, removed: set<nat>) returns (ok: bool, ghost sorted: seq<Row>)
      modifies this`rows
      ensures ok ==> multiset(sorted) == multiset(old(rows)) && InOrder(fields, orders, sorted) && rows == Visible(sorted, removed)
      ensures !ok ==> Missing(fields, orders)
    {
      var located := Locate(fields, orders);
      sorted := rows;
      if |rows| > 1 {
        if located.None? {
          return false, [];
        }
        ByPreorder(located.value, Directions(orders));
        rows := Sort(rows, By(located.value, Directions(orders)));
        sorted := rows;
        forall idxs | Located(fields, orders, idxs) ensures idxs == located.value {
          FoundOnce(fields, orders, idxs, located.value);
        }
      }
      rows := Visible(rows, removed);
      return true, sorted;
    }

    /** Cuts the rows to the LIMIT clause. */
    method Cut(plan: LimitPlan) returns (ok: bool)
      requires 0 <= plan.offset <= MaxInt && 0 <= plan.limit <= MaxInt
      modifies this`rows
      ensures ok <==> plan.offset + plan.limit <= MaxInt
      ensures ok ==> rows == Window(old(rows), plan.offset, plan.limit)
      ensures !ok ==> rows == old(rows)
    {
      var r := Limit(rows, plan.offset, plan.limit);
      if r.None? {
        return false;
      }
      rows := r.value;
      return true;
    }
  }

  lemma VisibleWindow(rows: seq<Row>, removed: set<nat>, offset: nat, limit: nat)
    ensures Window(Visible(rows, removed), offset, limit) == Visible(Window(rows, offset, limit), removed)
  {
  }

  lemma SameWindow(m: seq<Row>, s: seq<Row>, offset: nat, limit: nat)
    requires s[..Min(offset + limit, |s|)] == m[..Min(offset + limit, |m|)]
    ensures Window(m, offset, limit) == Window(s, offset, limit)
  {
    var a, b := m[..Min(offset + limit, |m|)], s[..Min(offset + limit, |s|)];
    assert Window(m, offset, limit) == a[Min(offset, |a|)..];
    assert Window(s, offset, limit) == b[Min(offset, |b|)..];
  }

  /** The answer is the requested window of all rows of all shards, in some sorted order. */
  ghost predicate WindowOfAll(answer: seq<Row>, shards: seq<seq<Row>>, cmp: Cmp, removed: set<nat>, offset: nat, limit: nat) {
    exists s :: SortedAs(s, multiset(Concat(shards)), cmp) && answer == Visible(Window(s, offset, limit), removed)
  }

  /** The answer is the requested window of the shards' answers, sorted by the columns. */
  ghost predicate WindowOfAnswers(answer: seq<Row>, answers: seq<seq<Row>>, cmp: Cmp, removed: set<nat>, offset: nat, limit: nat) {
    exists m :: SortedAs(m, multiset(Concat(answers)), cmp) && answer == Visible(Window(m, offset, limit), removed)
  }

  /** ORDER BY with LIMIT, pushed down to the shards and done again on their answers, which come in any
      order: for any number of shards and any directions the result is the window that sorting all rows in
      one place would give, when the columns located are those the shards sort by. In any case it is the window of
      the answers sorted by the columns located. It panics exactly when the two numbers together do not fit in 64
      bits. */
  method MergeSorted(answers: seq<seq<Row>>, ghost shards: seq<seq<Row>>, fields: seq<FieldName>, orders: seq<OrderBy>, removed: set<nat>,
                     plan: LimitPlan, ghost idxs: seq<nat>, ghost owns: seq<nat>)
    returns (r: Option<seq<Row>>)
    requires 0 <= plan.offset <= MaxInt && 0 <= plan.limit <= MaxInt && plan.rewritten == Wrap(plan.offset + plan.limit)
    requires Located(fields, orders, idxs) && |owns| == |orders| && |answers| == |shards|
    requires plan.rewritten >= 0 ==>
               forall i | 0 <= i < |shards| :: Answers(answers[i], shards[i], plan.rewritten, By(owns, Directions(orders)))
    ensures r.Some? <==> plan.offset + plan.limit <= MaxInt
    ensures r.Some? ==> WindowOfAnswers(r.value, answers, By(idxs, Directions(orders)), removed, plan.offset, plan.limit)
    ensures r.Some? && idxs == owns ==> WindowOfAll(r.value, shards, By(owns, Directions(orders)), removed, plan.offset, plan.limit)
  {
    var result := new Result(fields, Concat(answers));
    NotMissing(fields, orders, idxs);
    var ok, sorted := result.Order(orders, removed);
    var cut := result.Cut(plan);
    if !cut {
      return None;
    }
    VisibleWindow(sorted, removed, plan.offset, plan.limit);
    if idxs == owns {
      MergedWindow(answers, shards, sorted, By(idxs, Directions(orders)), removed, plan.offset, plan.limit, idxs, Directions(orders));
    }
    return Some(result.rows);
  }

  lemma MergedWindow(answers: seq<seq<Row>>, shards: seq<seq<Row>>, sorted: seq<Row>, cmp: Cmp, removed: set<nat>, offset: nat, limit: nat,
                     idxs: seq<nat>, desc: seq<bool>)
    requires |idxs| == |desc| && cmp == By(idxs, desc) && |answers| == |shards|
    requires forall i | 0 <= i < |shards| :: Answers(answers[i], shards[i], offset + limit, cmp)
    requires SortedAs(sorted, multiset(Concat(answers)), cmp)
    ensures WindowOfAll(Window(Visible(sorted, removed), offset, limit), shards, cmp, removed, offset, limit)
  {
    ByPreorder(idxs, desc);
    var s := TopRows(answers, shards, sorted, offset + limit, cmp);
    VisibleWindow(sorted, removed, offset, limit);
    SameWindow(sorted, s, offset, limit);
  }

  lemma NotMissing(fields: seq<FieldName>, orders: seq<OrderBy>, idxs: seq<nat>)
    requires Located(fields, orders, idxs)
    ensures !Missing(fields, orders)
  {
    forall k | 0 <= k < |orders| ensures !NoneNamed(fields, orders[k]) {
      assert fields[idxs[k]] in fields;
    }
  }

  lemma FoundOnce(fields: seq<FieldName>, orders: seq<OrderBy>, idxs: seq<nat>, found: seq<nat>)
    requires Located(fields, orders, idxs)
    ensures Located(fields, orders, found) ==> found == idxs
  {
    if Located(fields, orders, found) {
      forall k | 0 <= k < |orders| ensures found[k] == idxs[k] {
        assert Named(fields[idxs[k]], orders[k]) && Named(fields[found[k]], orders[k]);
      }
    }
  }
}
