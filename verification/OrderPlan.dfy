/** From the ORDER BY clause to the columns the answers are sorted by: when the columns the proxy finds by name are
    the ones the clause means. */
module OrderPlan {
  import opened Text
  import opened Bags
  import opened Values
  import opened Sorting
  import opened TopN
  import AggregatePlan

  type Tuple = AggregatePlan.Tuple

  /** An expression of the ORDER BY clause; an empty table means that none was written. */
  datatype OrderExpr = ByColumn(table: string, field: string, desc: bool) | ByOther

  predicate Star(t: Tuple) {
    t.field == "*"
  }

  /** The ORDER BY column is taken to be the select expression. */
  predicate Matches(e: OrderExpr, t: Tuple) {
    && e.ByColumn?
    && (|| (e.table == "" && (Star(t) || EqualFold(e.field, t.alias)))
        || (Star(t) && (t.table == "" || t.table == e.table))
        || (t.isCol && EqualFold(e.field, t.field) && (e.table == "" || e.table == t.table)))
  }

  ghost predicate FirstMatch(e: OrderExpr, tuples: seq<Tuple>, g: nat) {
    g < |tuples| && Matches(e, tuples[g]) && NoMatch(e, tuples[..g])
  }

  ghost predicate NoMatch(e: OrderExpr, tuples: seq<Tuple>) {
    forall i | 0 <= i < |tuples| :: !Matches(e, tuples[i])
  }

  /** The name of a select expression in the answers. */
  function OutName(t: Tuple): (name: string) {
    if t.alias != "" then t.alias else t.field
  }

  function FieldOf(t: Tuple): (f: FieldName) {
    FieldName(if t.isCol then t.table else "", OutName(t))
  }

  function FieldsOf(tuples: seq<Tuple>): (fields: seq<FieldName>)
    ensures |fields| == |tuples|
  {
    seq(|tuples|, i requires 0 <= i < |tuples| => FieldOf(tuples[i]))
  }

  /** The column that is selected only to sort by it. */
  function Pushed(e: OrderExpr, only: string): (t: Tuple)
    requires e.ByColumn?
  {
    AggregatePlan.Tuple(AggregatePlan.NoFunc, e.field, "", true, if e.table != "" then e.table else only)
  }

  /** What the proxy will look for among the fields of the answers. */
  function OrderFor(e: OrderExpr, t: Tuple): (o: OrderBy)
    requires e.ByColumn?
  {
    OrderBy(e.table, if Star(t) then e.field else OutName(t), e.desc)
  }

  /** The ORDER BY expression is no column, is of an unknown table, or is not selected and may be of several tables. */
  ghost predicate Refuses(e: OrderExpr, tuples: seq<Tuple>, tables: seq<string>) {
    || e.ByOther?
    || (e.table != "" && e.table !in tables)
    || (NoMatch(e, tuples) && e.table == "" && |tables| != 1)
  }

  method FindMatch(e: OrderExpr, tuples: seq<Tuple>) returns (g: nat)
    ensures g < |tuples| ==> FirstMatch(e, tuples, g)
    ensures g >= |tuples| ==> g == |tuples| && NoMatch(e, tuples)
  {
    g := 0;
    while g < |tuples| && !Matches(e, tuples[g])
      invariant g <= |tuples| && NoMatch(e, tuples[..g])
    {
      g := g + 1;
    }
  }

  /** One ORDER BY expression: the select expressions, with one more if it was not among them, the order, and which
      of the expressions it is. */
  method AnalyzeOne(e: OrderExpr, tuples: seq<Tuple>, tables: seq<string>) returns (r: Option<(seq<Tuple>, OrderBy)>, g: nat)
    ensures r.None? <==> Refuses(e, tuples, tables)
    ensures r.Some? ==> tuples <= r.value.0 && Chosen(e, r.value.0, r.value.1, g)
    ensures r.Some? ==> r.value.0 == tuples || (g == |tuples| && r.value.0 == tuples + [r.value.0[g]])
  {
    g := 0;
    if e.ByOther? || (e.table != "" && e.table !in tables) {
      return None, g;
    }
    g := FindMatch(e, tuples);
    if g < |tuples| {
      return Some((tuples, OrderFor(e, tuples[g]))), g;
    }
    if e.table == "" && |tables| != 1 {
      return None, g;
    }
    var t := Pushed(e, if |tables| == 1 then tables[0] else "");
    assert (tuples + [t])[..g] == tuples;
    return Some((tuples + [t], OrderFor(e, t))), g;
  }

  /** The g-th expression is the one the ORDER BY expression means, and the order is made from it. */
  ghost predicate Chosen(e: OrderExpr, tuples: seq<Tuple>, o: OrderBy, g: nat) {
    e.ByColumn? && FirstMatch(e, tuples, g) && o == OrderFor(e, tuples[g])
  }

  lemma ChosenLonger(e: OrderExpr, tuples: seq<Tuple>, tuples': seq<Tuple>, o: OrderBy, g: nat)
    requires tuples <= tuples' && Chosen(e, tuples, o, g)
    ensures Chosen(e, tuples', o, g)
  {
    assert tuples'[..g] == tuples[..g];
  }

  /** Plans the ORDER BY clause. */
  method Analyze(exprs: seq<OrderExpr>, tuples: seq<Tuple>, tables: seq<string>)
    returns (r: Option<(seq<Tuple>, seq<OrderBy>)>, removed: set<nat>, ghost owns: seq<nat>)
    ensures r.Some? ==> tuples <= r.value.0 && |r.value.1| == |owns| == |exprs|
    ensures r.Some? ==> forall k | 0 <= k < |exprs| :: Chosen(exprs[k], r.value.0, r.value.1[k], owns[k])
    ensures r.Some? ==> forall i :: i in removed <==> |tuples| <= i < |r.value.0|
    ensures r.None? ==> exists k | 0 <= k < |exprs| :: Refuses(exprs[k], tuples, tables)
  {
    var all, orders: seq<OrderBy> := tuples, [];
    removed, owns := {}, [];
    for k := 0 to |exprs|
      invariant tuples <= all && |orders| == |owns| == k && forall i :: i in removed <==> |tuples| <= i < |all|
      invariant forall j | 0 <= j < k :: Chosen(exprs[j], all, orders[j], owns[j])
    {
      var one, g := AnalyzeOne(exprs[k], all, tables);
      if one.None? {
        RefusesShorter(exprs[k], tuples, all, tables);
        return None, {}, [];
      }
      ghost var before := all;
      if |one.value.0| > |all| {
        removed := removed + {g};
      }
      all := one.value.0;
      forall j | 0 <= j < k ensures Chosen(exprs[j], all, orders[j], owns[j]) {
        ChosenLonger(exprs[j], before, all, orders[j], owns[j]);
      }
      orders, owns := orders + [one.value.1], owns + [g];
    }
    return Some((all, orders)), removed, owns;
  }

  lemma RefusesShorter(e: OrderExpr, tuples: seq<Tuple>, all: seq<Tuple>, tables: seq<string>)
    requires tuples <= all && Refuses(e, all, tables)
    ensures Refuses(e, tuples, tables)
  {
    if NoMatch(e, all) {
      forall i | 0 <= i < |tuples| ensures !Matches(e, tuples[i]) {
        assert tuples[i] == all[i];
      }
    }
  }

  // ---------------------------------------------------------------- the column that is found

  /** An earlier field of the answers has the name of the order, and its table if one was written. */
  predicate NameTaken(tuples: seq<Tuple>, o: OrderBy, g: nat) {
    exists j: nat | j < g && j < |tuples| :: Named(FieldOf(tuples[j]), o)
  }

  predicate NoStar(tuples: seq<Tuple>) {
    forall i | 0 <= i < |tuples| :: !Star(tuples[i])
  }

  lemma OwnNamed(e: OrderExpr, tuples: seq<Tuple>, o: OrderBy, g: nat)
    requires Chosen(e, tuples, o, g) && !Star(tuples[g])
    ensures Named(FieldOf(tuples[g]), o)
  {
  }

  /** The proxy finds a field for every order. It is the expression the ORDER BY clause means if and only if no
      earlier field has its name. */
  lemma FoundOwn(exprs: seq<OrderExpr>, tuples: seq<Tuple>, orders: seq<OrderBy>, owns: seq<nat>, idxs: seq<nat>, k: nat)
    requires NoStar(tuples) && |exprs| == |orders| == |owns| && k < |orders| && Chosen(exprs[k], tuples, orders[k], owns[k])
    requires Located(FieldsOf(tuples), orders, idxs)
    ensures idxs[k] <= owns[k] && (idxs[k] == owns[k] <==> !NameTaken(tuples, orders[k], owns[k]))
  {
    OwnNamed(exprs[k], tuples, orders[k], owns[k]);
    var i := idxs[k];
    assert Named(FieldsOf(tuples)[i], orders[k]) && FieldsOf(tuples)[owns[k]] == FieldOf(tuples[owns[k]]);
    if NameTaken(tuples, orders[k], owns[k]) {
      var j: nat :| j < owns[k] && Named(FieldOf(tuples[j]), orders[k]);
      assert Named(FieldsOf(tuples)[j], orders[k]);
    }
  }

  /** Some order finds another column than its own. */
  ghost predicate AnyTaken(tuples: seq<Tuple>, orders: seq<OrderBy>, owns: seq<nat>)
    requires |owns| == |orders|
  {
    exists k | 0 <= k < |orders| :: NameTaken(tuples, orders[k], owns[k])
  }

  /** A select with ORDER BY and LIMIT over shards, from the plan of its ORDER BY clause: when no name is taken, the
      answer is the window of all rows sorted by the columns the clause means. In any case it is the window of the
      answers sorted by the columns found. */
  method SortSelect(ghost exprs: seq<OrderExpr>, tuples: seq<Tuple>, orders: seq<OrderBy>, ghost owns: seq<nat>, removed: set<nat>,
                    answers: seq<seq<Row>>, ghost shards: seq<seq<Row>>, plan: LimitPlan)
    returns (r: Option<seq<Row>>)
    requires NoStar(tuples) && |exprs| == |orders| == |owns| && forall k | 0 <= k < |orders| :: Chosen(exprs[k], tuples, orders[k], owns[k])
    requires 0 <= plan.offset <= MaxInt && 0 <= plan.limit <= MaxInt && plan.rewritten == Wrap(plan.offset + plan.limit)
    requires |answers| == |shards|
    requires plan.rewritten >= 0 ==>
               forall i | 0 <= i < |shards| :: Answers(answers[i], shards[i], plan.rewritten, By(owns, Directions(orders)))
    ensures r.Some? <==> plan.offset + plan.limit <= MaxInt
    ensures r.Some? ==> forall idxs | Located(FieldsOf(tuples), orders, idxs) ::
              WindowOfAnswers(r.value, answers, By(idxs, Directions(orders)), removed, plan.offset, plan.limit)
    ensures r.Some? && !AnyTaken(tuples, orders, owns) ==>
              WindowOfAll(r.value, shards, By(owns, Directions(orders)), removed, plan.offset, plan.limit)
  {
    var located := Locate(FieldsOf(tuples), orders);
    AllFound(exprs, tuples, orders, owns);
    if !AnyTaken(tuples, orders, owns) {
      forall k | 0 <= k < |orders| ensures located.value[k] == owns[k] {
        FoundOwn(exprs, tuples, orders, owns, located.value, k);
      }
    }
    r := MergeSorted(answers, shards, FieldsOf(tuples), orders, removed, plan, located.value, owns);
    forall idxs | Located(FieldsOf(tuples), orders, idxs) ensures idxs == located.value {
      FoundOnce(FieldsOf(tuples), orders, idxs, located.value);
    }
  }

  lemma AllFound(exprs: seq<OrderExpr>, tuples: seq<Tuple>, orders: seq<OrderBy>, owns: seq<nat>)
    requires NoStar(tuples) && |exprs| == |orders| == |owns| && forall k | 0 <= k < |orders| :: Chosen(exprs[k], tuples, orders[k], owns[k])
    ensures !TopN.Missing(FieldsOf(tuples), orders)
  {
    forall k | 0 <= k < |orders| ensures !NoneNamed(FieldsOf(tuples), orders[k]) {
      assert Chosen(exprs[k], tuples, orders[k], owns[k]);
      OwnNamed(exprs[k], tuples, orders[k], owns[k]);
      assert FieldsOf(tuples)[owns[k]] in FieldsOf(tuples);
    }
  }

  // ---------------------------------------------------------------- when another column is found

  const Low: Value := Val(1.0, true, "1")
  const High: Value := Val(2.0, true, "2")

  /** The two lists of columns are the same up to the k-th, where both have a column they do not have before, and
      these differ. */
  predicate DifferAt(idxs: seq<nat>, owns: seq<nat>, k: nat) {
    && k < |idxs| == |owns| && idxs[..k] == owns[..k] && idxs[k] != owns[k]
    && idxs[k] !in idxs[..k] && owns[k] !in owns[..k]
  }

  /** A row in which one column is high and all others are low. */
  function HighAt(c: nat, width: nat): (row: Row)
    ensures |row| == width && forall i: nat :: Col(row, i) == if i >= width then Null else if i == c then High else Low
  {
    seq(width, i requires 0 <= i < width => if i == c then High else Low)
  }

  lemma {:induction false} FirstDifference(a: seq<Value>, b: seq<Value>, desc: seq<bool>, k: nat)
    requires |a| == |b| == |desc| && k < |a| && NullsafeCompare(a[k], b[k]) != 0
    requires forall i | 0 <= i < k :: NullsafeCompare(a[i], b[i]) == 0
    ensures LexCompare(a, b, desc) == if desc[k] then -NullsafeCompare(a[k], b[k]) else NullsafeCompare(a[k], b[k])
    decreases |a|
  {
    if k > 0 {
      assert NullsafeCompare(a[0], b[0]) == 0;
      forall i | 0 <= i < k - 1 ensures NullsafeCompare(a[1..][i], b[1..][i]) == 0 {
        assert NullsafeCompare(a[i + 1], b[i + 1]) == 0;
      }
      FirstDifference(a[1..], b[1..], desc[1..], k - 1);
    }
  }

  /** Compared by columns of which the k-th is the first of the two high ones. */
  lemma HighsCompare(cols: seq<nat>, desc: seq<bool>, k: nat, c: nat, d: nat, width: nat)
    requires |cols| == |desc| && k < |cols| && c != d && c < width && d < width && cols[k] == c && c !in cols[..k] && d !in cols[..k]
    ensures By(cols, desc)(HighAt(c, width), HighAt(d, width)) == if desc[k] then -1 else 1
  {
    var a, b := Key(HighAt(c, width), cols), Key(HighAt(d, width), cols);
    forall i | 0 <= i < k ensures NullsafeCompare(a[i], b[i]) == 0 {
      assert cols[i] in cols[..k];
    }
    assert a[k] == High && b[k] == Low;
    FirstDifference(a, b, desc, k);
  }

  lemma TwoSorted(m: seq<Row>, a: Row, b: Row, cmp: Cmp)
    requires SortedAs(m, multiset{a, b}, cmp) && a != b && cmp(a, b) > 0
    ensures m == [b, a]
  {
    assert |m| == |multiset(m)| == 2;
    assert m[0] in multiset(m) && m[1] in multiset(m);
    assert m == [m[0], m[1]];
    assert multiset(m)[a] == 1 && multiset(m)[b] == 1;
  }

  lemma Concat2(a: Row, b: Row)
    ensures multiset(Concat([[a], [b]])) == multiset{a, b}
  {
    var s := [[a], [b]];
    assert s[..1] == [[a]] && [[a]][..0] == [];
    assert Concat([[a]]) == [a];
  }

  /** The result is the window that the columns meant would give, whatever the shards have. */
  ghost predicate SortsRight(idxs: seq<nat>, owns: seq<nat>, desc: seq<bool>)
    requires |idxs| == |owns| == |desc|
  {
    forall answers, shards, offset: nat, limit: nat, r |
      && |answers| == |shards| && (forall i | 0 <= i < |shards| :: Answers(answers[i], shards[i], offset + limit, By(owns, desc)))
      && WindowOfAnswers(r, answers, By(idxs, desc), {}, offset, limit) ::
      WindowOfAll(r, shards, By(owns, desc), {}, offset, limit)
  }

  lemma AnswersOne(a: Row, cmp: Cmp)
    ensures Answers([a], [a], 1, cmp)
  {
    assert SortedAs([a], multiset([a]), cmp) && [a] == [a][..Min(1, 1)];
  }

  /** What LIMIT 1 keeps of two shards with a row each. */
  lemma KeepsFirst(a: Row, b: Row, cmp: Cmp, r: seq<Row>)
    requires a != b && cmp(a, b) > 0
    ensures WindowOfAnswers(r, [[a], [b]], cmp, {}, 0, 1) ==> r == Visible([b], {})
    ensures WindowOfAll(r, [[a], [b]], cmp, {}, 0, 1) ==> r == Visible([b], {})
  {
    Concat2(a, b);
    if WindowOfAnswers(r, [[a], [b]], cmp, {}, 0, 1) {
      var m :| SortedAs(m, multiset(Concat([[a], [b]])), cmp) && r == Visible(Window(m, 0, 1), {});
      TwoSorted(m, a, b, cmp);
      assert Window(m, 0, 1) == [b];
    }
    if WindowOfAll(r, [[a], [b]], cmp, {}, 0, 1) {
      var m :| SortedAs(m, multiset(Concat([[a], [b]])), cmp) && r == Visible(Window(m, 0, 1), {});
      TwoSorted(m, a, b, cmp);
      assert Window(m, 0, 1) == [b];
    }
  }

  lemma KeptExists(a: Row, b: Row, cmp: Cmp)
    requires cmp(b, a) <= 0
    ensures WindowOfAnswers(Visible([b], {}), [[a], [b]], cmp, {}, 0, 1)
  {
    Concat2(a, b);
    assert SortedAs([b, a], multiset(Concat([[a], [b]])), cmp) && Window([b, a], 0, 1) == [b];
  }

  lemma {:induction false} NoneRemoved(row: Row)
    ensures RemoveColumns(row, {}) == row
    decreases |row|
  {
    if row != [] {
      NoneRemoved(row[..|row| - 1]);
      LastApart(row);
    }
  }

  /** Of the two rows, one is kept by the columns found and the other by the columns meant. */
  lemma OtherRowKept(a: Row, b: Row, found: Cmp, meant: Cmp)
    requires a != b && found(a, b) > 0 && found(b, a) <= 0 && meant(b, a) > 0
    ensures WindowOfAnswers(Visible([b], {}), [[a], [b]], found, {}, 0, 1)
    ensures !WindowOfAll(Visible([b], {}), [[a], [b]], meant, {}, 0, 1)
  {
    KeptExists(a, b, found);
    KeepsMeant(a, b, meant, Visible([b], {}));
    NoneRemoved(a);
    NoneRemoved(b);
    assert Visible([b], {})[0] == b && Visible([a], {})[0] == a;
  }

  lemma KeepsMeant(a: Row, b: Row, meant: Cmp, r: seq<Row>)
    requires a != b && meant(b, a) > 0
    ensures WindowOfAll(r, [[a], [b]], meant, {}, 0, 1) ==> r == Visible([a], {})
  {
    Concat2(a, b);
    if WindowOfAll(r, [[a], [b]], meant, {}, 0, 1) {
      var m :| SortedAs(m, multiset(Concat([[a], [b]])), meant) && r == Visible(Window(m, 0, 1), {});
      assert multiset{a, b} == multiset{b, a};
      TwoSorted(m, b, a, meant);
      assert Window(m, 0, 1) == [a];
    }
  }

  /** Two rows that the two lists of columns put in opposite order. */
  lemma Opposed(idxs: seq<nat>, owns: seq<nat>, desc: seq<bool>, k: nat) returns (a: Row, b: Row)
    requires |idxs| == |owns| == |desc| && DifferAt(idxs, owns, k)
    ensures a != b && By(idxs, desc)(a, b) > 0 && By(idxs, desc)(b, a) <= 0 && By(owns, desc)(b, a) > 0
  {
    var c, d, width := idxs[k], owns[k], idxs[k] + owns[k] + 1;
    var x, y := HighAt(c, width), HighAt(d, width);
    assert Col(x, c) != Col(y, c);
    HighsCompare(idxs, desc, k, c, d, width);
    HighsCompare(owns, desc, k, d, c, width);
    Turned(idxs, desc, x, y);
    Turned(owns, desc, y, x);
    a, b := if desc[k] then y else x, if desc[k] then x else y;
  }

  lemma Turned(cols: seq<nat>, desc: seq<bool>, x: Row, y: Row)
    requires |cols| == |desc|
    ensures By(cols, desc)(x, y) == -By(cols, desc)(y, x)
  {
    LexAntisymmetric(Key(x, cols), Key(y, cols), desc);
  }

  /** When a column is found that is not the one meant, two shards with a row each and LIMIT 1 give the wrong row. */
  lemma OtherColumnWrong(idxs: seq<nat>, owns: seq<nat>, desc: seq<bool>, k: nat)
    requires |idxs| == |owns| == |desc| && DifferAt(idxs, owns, k)
    ensures !SortsRight(idxs, owns, desc)
  {
    var a, b := Opposed(idxs, owns, desc, k);
    OtherRowKept(a, b, By(idxs, desc), By(owns, desc));
    BothAnswer(a, b, By(owns, desc));
    var two := [[a], [b]];
    assert forall i | 0 <= i < |two| :: Answers(two[i], two[i], 0 + 1, By(owns, desc));
  }

  lemma BothAnswer(a: Row, b: Row, cmp: Cmp)
    ensures forall i | 0 <= i < 2 :: Answers([[a], [b]][i], [[a], [b]][i], 1, cmp)
  {
    AnswersOne(a, cmp);
    AnswersOne(b, cmp);
  }

  /** No column is found or meant twice. */
  predicate NoRepeats(cols: seq<nat>) {
    forall i, j | 0 <= i < j < |cols| :: cols[i] != cols[j]
  }

  lemma {:induction false} FirstDiffers(idxs: seq<nat>, owns: seq<nat>) returns (k: nat)
    requires |idxs| == |owns| && idxs != owns
    ensures k < |idxs| && idxs[..k] == owns[..k] && idxs[k] != owns[k]
    decreases |idxs|
  {
    var n := |idxs| - 1;
    if idxs[..n] == owns[..n] {
      k := n;
      LastApart(idxs);
      LastApart(owns);
    } else {
      k := FirstDiffers(idxs[..n], owns[..n]);
      assert idxs[..n][..k] == idxs[..k] && owns[..n][..k] == owns[..k];
    }
  }

  lemma SameColumnsRight(idxs: seq<nat>, desc: seq<bool>)
    requires |idxs| == |desc|
    ensures SortsRight(idxs, idxs, desc)
  {
    var cmp := By(idxs, desc);
    forall answers, shards, offset: nat, limit: nat, r |
      && |answers| == |shards| && (forall i | 0 <= i < |shards| :: Answers(answers[i], shards[i], offset + limit, cmp))
      && WindowOfAnswers(r, answers, cmp, {}, offset, limit)
      ensures WindowOfAll(r, shards, cmp, {}, offset, limit)
    {
      var m :| SortedAs(m, multiset(Concat(answers)), cmp) && r == Visible(Window(m, offset, limit), {});
      VisibleWindow(m, {}, offset, limit);
      MergedWindow(answers, shards, m, cmp, {}, offset, limit, idxs, desc);
    }
  }

  /** Sorting by the columns found is right for all rows if and only if they are the columns meant, when neither list
      names a column twice. */
  lemma SortsExactly(idxs: seq<nat>, owns: seq<nat>, desc: seq<bool>)
    requires |idxs| == |owns| == |desc| && NoRepeats(idxs) && NoRepeats(owns)
    ensures SortsRight(idxs, owns, desc) <==> idxs == owns
  {
    if idxs == owns {
      SameColumnsRight(idxs, desc);
    } else {
      var k := FirstDiffers(idxs, owns);
      assert DifferAt(idxs, owns, k);
      OtherColumnWrong(idxs, owns, desc, k);
    }
  }

  // ---------------------------------------------------------------- SELECT b AS a, a FROM t ORDER BY t.a

  const Renamed: Tuple := AggregatePlan.Tuple(AggregatePlan.NoFunc, "b", "a", true, "t")
  const Own: Tuple := AggregatePlan.Tuple(AggregatePlan.NoFunc, "a", "", true, "t")
  const ByA: OrderExpr := ByColumn("t", "a", false)

  /** The clause means the second column, and the proxy finds the first. */
  lemma AliasFound()
    ensures Chosen(ByA, [Renamed, Own], OrderBy("t", "a", false), 1)
    ensures NameTaken([Renamed, Own], OrderBy("t", "a", false), 1) && Located(FieldsOf([Renamed, Own]), [OrderBy("t", "a", false)], [0])
  {
    assert Fold("a")[0] != Fold("b")[0];
    assert "t" != "" && "a" != "";
    assert [Renamed, Own][0] == Renamed && Named(FieldOf([Renamed, Own][0]), OrderBy("t", "a", false));
  }

  /** SELECT b AS a, a FROM t ORDER BY t.a LIMIT 1, of two shards with a row each. */
  method OneOfTwo(a: Row, b: Row) returns (r: Option<seq<Row>>)
    ensures r.Some? && WindowOfAnswers(r.value, [[a], [b]], By([0], [false]), {}, 0, 1)
  {
    var plan := new LimitPlan();
    plan.limit, plan.rewritten := 1, 1;
    AliasFound();
    BothAnswer(a, b, By([1], [false]));
    var orders := [OrderBy("t", "a", false)];
    assert Directions(orders) == [false] && NoStar([Renamed, Own]);
    r := SortSelect([ByA], [Renamed, Own], orders, [1], {}, [[a], [b]], [[a], [b]], plan);
  }

  /** The row whose a is 1 comes first, and the other one is returned. */
  method WrongRowKept() returns (r: Option<seq<Row>>)
    ensures r == Some([[Low, High]]) && !WindowOfAll([[Low, High]], [[[High, Low]], [[Low, High]]], By([1], [false]), {}, 0, 1)
  {
    r := OneOfTwo([High, Low], [Low, High]);
    WrongRow([High, Low], [Low, High], r.value);
  }

  lemma WrongRow(a: Row, b: Row, r: seq<Row>)
    requires a == [High, Low] && b == [Low, High] && WindowOfAnswers(r, [[a], [b]], By([0], [false]), {}, 0, 1)
    ensures r == [b] && !WindowOfAll([b], [[a], [b]], By([1], [false]), {}, 0, 1)
  {
    RowsCompare(a, b);
    KeepsFirst(a, b, By([0], [false]), r);
    OtherRowKept(a, b, By([0], [false]), By([1], [false]));
    NoneRemoved(b);
    assert Visible([b], {}) == [b];
  }

  lemma RowsCompare(a: Row, b: Row)
    requires a == [High, Low] && b == [Low, High]
    ensures a != b && By([0], [false])(a, b) > 0 && By([0], [false])(b, a) <= 0 && By([1], [false])(b, a) > 0
  {
    assert a[0] != b[0];
    ByColumnCompares(0, a, b);
    ByColumnCompares(0, b, a);
    ByColumnCompares(1, b, a);
  }

  lemma ByColumnCompares(c: nat, a: Row, b: Row)
    ensures By([c], [false])(a, b) == NullsafeCompare(Col(a, c), Col(b, c))
  {
    assert Key(a, [c]) == [Col(a, c)] && Key(b, [c]) == [Col(b, c)];
    assert LexCompare([Col(a, c)], [Col(b, c)], [false]) == NullsafeCompare(Col(a, c), Col(b, c)) by {
      assert [Col(a, c)][1..] == [] && [Col(b, c)][1..] == [] && [false][1..] == [];
    }
  }
}
