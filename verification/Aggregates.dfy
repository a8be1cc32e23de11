/** The aggregate operator: sorts the rows by the GROUP BY columns, puts neighbours with equal keys into
    one group, and makes one row of each. */
module Aggregates {
  import opened Text
  import opened Bags
  import opened Values
  import opened Sorting
  import opened AggregatePlan
  import opened AggregateValues

  /** The value of a select expression, or of its argument, on a row of the tables. */
  type Arg = (nat, Row) -> Value

  /** A select with aggregates: its expressions, which of them GROUP BY names, and whether the shards
      aggregate too. */
  datatype Query = Query(pd: bool, items: seq<Item>, groups: seq<nat>, arg: Arg) {
    predicate Valid() {
      forall g | g in groups :: g < |items| && items[g].Plain?
    }

    function Aggrs(): (list: seq<Aggregator>) {
      AggrsOf(pd, items)
    }

    /** The columns of the GROUP BY expressions. */
    function Cols(): (cols: seq<nat>)
      requires Valid()
      ensures |cols| == |groups|
    {
      seq(|groups|, g requires 0 <= g < |groups| => ColOf(groups[g]))
    }

    /** Two expressions with the same value on every row. */
    ghost predicate SameArg(i: nat, g: nat) {
      forall r :: arg(i, r) == arg(g, r)
    }

    /** A plain expression that GROUP BY fixes: one it names, or one that is the same as such. */
    ghost predicate Fixed(i: nat) {
      i < |items| && items[i].Plain? && exists g | g in groups :: SameArg(i, g)
    }

    function ColOf(i: nat): (c: nat) {
      if i <= |items| then Off(pd, items, i) else 0
    }

    function Args(i: nat, rows: seq<Row>): (vs: seq<Value>)
      ensures |vs| == |rows|
    {
      seq(|rows|, k requires 0 <= k < |rows| => arg(i, rows[k]))
    }

    /** The key of a row of the tables. */
    function KeyOf(r: Row): (k: seq<Value>)
      ensures |k| == |groups|
    {
      seq(|groups|, g requires 0 <= g < |groups| => arg(groups[g], r))
    }
  }

  predicate SameKey(a: seq<Value>, b: seq<Value>) {
    |a| == |b| && forall i | 0 <= i < |a| :: Same(a[i], b[i])
  }

  /** A row to aggregate, with the rows of the tables it was made of. */
  datatype Part = Part(row: Row, members: seq<Row>)

  ghost predicate CellsAre(q: Query, row: Row, members: seq<Row>) {
    |row| >= Columns(q.pd, q.items) && forall a | a in q.Aggrs() :: CellIs(q.pd, a.typ, Col(row, a.index), q.Args(a.item, members))
  }

  /** The row has what GROUP BY fixes of its members. */
  ghost predicate KeyIs(q: Query, row: Row, members: seq<Row>) {
    forall r, i: nat | r in members && q.Fixed(i) :: Same(Col(row, q.ColOf(i)), q.arg(i, r))
  }

  lemma KeyIsKey(q: Query, row: Row, members: seq<Row>, r: Row)
    requires q.Valid() && KeyIs(q, row, members) && r in members
    ensures SameKey(Key(row, q.Cols()), q.KeyOf(r))
  {
    forall p | 0 <= p < |q.groups| ensures Same(Key(row, q.Cols())[p], q.KeyOf(r)[p]) {
      assert q.groups[p] in q.groups && q.SameArg(q.groups[p], q.groups[p]);
      assert q.Fixed(q.groups[p]);
    }
  }

  /** What the operator is given: partial results of groups, or single rows, with the columns of the select
      list first. Only without GROUP BY may a shard have a result for no rows. */
  ghost predicate PartIs(q: Query, p: Part) {
    CellsAre(q, p.row, p.members) && KeyIs(q, p.row, p.members) && (q.groups != [] ==> p.members != [])
  }

  function RowsOf(ins: seq<Part>): (rows: seq<Row>)
    ensures |rows| == |ins|
  {
    seq(|ins|, i requires 0 <= i < |ins| => ins[i].row)
  }

  function Members(ins: seq<Part>): (b: multiset<Row>) {
    if ins == [] then multiset{} else Members(ins[..|ins| - 1]) + multiset(ins[|ins| - 1].members)
  }

  // ---------------------------------------------------------------- the meaning of GROUP BY

  /** The row of a group: the aggregates of its members, and their common key. */
  ghost predicate OutIs(q: Query, row: Row, members: seq<Row>) {
    && |row| >= |q.items|
    && (forall i | 0 <= i < |q.items| && q.items[i].Agg? :: Same(row[i], SqlAggregate(q.items[i].typ, q.Args(i, members))))
    && (forall r, i: nat | r in members && q.Fixed(i) :: Same(row[i], q.arg(i, r)))
  }

  /** One row for each key among all rows, with the aggregates over exactly the rows with that key. */
  ghost predicate GroupBy(q: Query, out: seq<Row>, groups: seq<seq<Row>>, all: multiset<Row>) {
    && |groups| == |out| && Together(groups) == all
    && (forall j | 0 <= j < |out| :: OutIs(q, out[j], groups[j]))
    && (if q.groups == [] then |out| == 1 else forall j | 0 <= j < |groups| :: groups[j] != [])
    && (forall j | 0 <= j < |groups| :: OneKey(q, groups[j]))
    && (forall j, k | 0 <= j < k < |groups| :: KeysApart(q, groups[j], groups[k]))
  }

  ghost predicate OneKey(q: Query, members: seq<Row>) {
    forall r, s | r in members && s in members :: SameKey(q.KeyOf(r), q.KeyOf(s))
  }

  ghost predicate KeysApart(q: Query, a: seq<Row>, b: seq<Row>) {
    forall r, s | r in a && s in b :: !SameKey(q.KeyOf(r), q.KeyOf(s))
  }

  function Together(groups: seq<seq<Row>>): (b: multiset<Row>) {
    if groups == [] then multiset{} else Together(groups[..|groups| - 1]) + multiset(groups[|groups| - 1])
  }

  // ---------------------------------------------------------------- sorting

  function ByKey(cols: seq<nat>): (cmp: (Row, Row) -> int) {
    (a, b) => RowCompare(cols, Ascending(|cols|), a, b)
  }

  lemma ByKeyPreorder(cols: seq<nat>)
    ensures Preorder(ByKey(cols))
  {
    RowComparePreorder(cols, Ascending(|cols|));
  }

  lemma ByKeyZero(cols: seq<nat>, a: Row, b: Row)
    ensures ByKey(cols)(a, b) == 0 <==> SameKey(Key(a, cols), Key(b, cols))
  {
    LexZero(Key(a, cols), Key(b, cols), Ascending(|cols|));
    forall i | 0 <= i < |cols| ensures Same(Key(a, cols)[i], Key(b, cols)[i]) <==> NullsafeCompare(Key(a, cols)[i], Key(b, cols)[i]) == 0 {
      SameCompare(Key(a, cols)[i], Key(b, cols)[i]);
    }
  }

  /** The parts in the order of the sorted rows. */
  lemma {:induction false} Along(ins: seq<Part>, sorted: seq<Row>) returns (outs: seq<Part>)
    requires multiset(sorted) == multiset(RowsOf(ins))
    ensures RowsOf(outs) == sorted && multiset(outs) == multiset(ins)
    decreases |sorted|
  {
    if sorted == [] {
      assert |RowsOf(ins)| == |multiset(RowsOf(ins))| == 0;
      outs := [];
    } else {
      var i := Counterpart(sorted, RowsOf(ins));
      assert RowsOf(Without(ins, i)) == Without(RowsOf(ins), i);
      var rest := Along(Without(ins, i), sorted[1..]);
      outs := [ins[i]] + rest;
      WithoutBag(ins, i);
      assert sorted == [sorted[0]] + sorted[1..];
    }
  }

  lemma {:induction false} MembersSum(ins: seq<Part>)
    ensures Members(ins) == Bags.Sum(ins, (p: Part) => multiset(p.members))
    decreases |ins|
  {
    if ins != [] {
      var n := |ins| - 1;
      MembersSum(ins[..n]);
      LastApart(ins);
      SumAppend(ins[..n], [ins[n]], (p: Part) => multiset(p.members));
      SumSingle(ins[n], (p: Part) => multiset(p.members));
    }
  }

  lemma MembersPermutation(ins: seq<Part>, outs: seq<Part>)
    requires multiset(ins) == multiset(outs)
    ensures Members(ins) == Members(outs)
  {
    MembersSum(ins);
    MembersSum(outs);
    SumPermutation(ins, outs, (p: Part) => multiset(p.members));
  }

  // ---------------------------------------------------------------- groups

  datatype Group = Group(row: Row, ctxs: seq<Ctx>)

  ghost predicate CtxsAre(q: Query, ctxs: seq<Ctx>, members: seq<Row>) {
    && |ctxs| == |q.Aggrs()|
    && forall i | 0 <= i < |ctxs| :: CtxIs(q.pd, q.Aggrs()[i].typ, ctxs[i], q.Args(q.Aggrs()[i].item, members))
  }

  ghost predicate GroupIs(q: Query, g: Group, members: seq<Row>) {
    CtxsAre(q, g.ctxs, members) && |g.row| >= Columns(q.pd, q.items) && KeyIs(q, g.row, members) && (q.groups != [] ==> members != [])
  }

  /** The plan has the aggregates of the query, and the columns of its GROUP BY expressions. */
  ghost predicate PlanOf(q: Query, plan: Plan) {
    q.Valid() && plan.pd == q.pd && plan.normal == q.Aggrs() && plan.groups == q.Cols()
  }

  method NewCtxs(plan: Plan, x: Option<Row>) returns (ctxs: seq<Ctx>)
    ensures |ctxs| == |plan.normal| && forall i | 0 <= i < |ctxs| :: ctxs[i] == InitCtx(plan.pd, plan.normal[i], x)
  {
    ctxs := [];
    for i := 0 to |plan.normal|
      invariant |ctxs| == i && forall k | 0 <= k < i :: ctxs[k] == InitCtx(plan.pd, plan.normal[k], x)
    {
      ctxs := ctxs + [InitCtx(plan.pd, plan.normal[i], x)];
    }
  }

  method UpdateCtxs(plan: Plan, row: Row, ctxs: seq<Ctx>) returns (r: seq<Ctx>)
    requires |ctxs| == |plan.normal|
    ensures |r| == |ctxs| && forall i | 0 <= i < |r| :: r[i] == UpdateCtx(plan.pd, plan.normal[i], row, ctxs[i])
  {
    r := [];
    for i := 0 to |plan.normal|
      invariant |r| == i && forall k | 0 <= k < i :: r[k] == UpdateCtx(plan.pd, plan.normal[k], row, ctxs[k])
    {
      r := r + [UpdateCtx(plan.pd, plan.normal[i], row, ctxs[i])];
    }
  }

  lemma NewGroupIs(q: Query, p: Part, ctxs: seq<Ctx>)
    requires q.Valid() && PartIs(q, p)
    requires |ctxs| == |q.Aggrs()| && forall i | 0 <= i < |ctxs| :: ctxs[i] == InitCtx(q.pd, q.Aggrs()[i], Some(p.row))
    ensures GroupIs(q, Group(p.row, ctxs), p.members)
  {
    forall i | 0 <= i < |ctxs| ensures CtxIs(q.pd, q.Aggrs()[i].typ, ctxs[i], q.Args(q.Aggrs()[i].item, p.members)) {
      var a := q.Aggrs()[i];
      assert a in q.Aggrs();
      InitIs(q.pd, a, p.row, q.Args(a.item, p.members));
    }
  }

  lemma UpdatedGroupIs(q: Query, g: Group, members: seq<Row>, p: Part, ctxs: seq<Ctx>)
    requires q.Valid() && GroupIs(q, g, members) && PartIs(q, p) && SameKey(Key(g.row, q.Cols()), Key(p.row, q.Cols()))
    requires |ctxs| == |g.ctxs| && forall i | 0 <= i < |ctxs| :: ctxs[i] == UpdateCtx(q.pd, q.Aggrs()[i], p.row, g.ctxs[i])
    ensures GroupIs(q, Group(g.row, ctxs), members + p.members)
  {
    forall i | 0 <= i < |ctxs| ensures CtxIs(q.pd, q.Aggrs()[i].typ, ctxs[i], q.Args(q.Aggrs()[i].item, members + p.members)) {
      var a := q.Aggrs()[i];
      assert a in q.Aggrs();
      assert q.Args(a.item, members + p.members) == q.Args(a.item, members) + q.Args(a.item, p.members);
      UpdateIs(q.pd, a, p.row, g.ctxs[i], q.Args(a.item, members), q.Args(a.item, p.members));
    }
    JoinedKey(q, g.row, p.row, members, p.members);
  }

  lemma JoinedKey(q: Query, row: Row, other: Row, a: seq<Row>, b: seq<Row>)
    requires q.Valid() && KeyIs(q, row, a) && KeyIs(q, other, b) && SameKey(Key(row, q.Cols()), Key(other, q.Cols()))
    requires q.groups != [] ==> a != []
    ensures KeyIs(q, row, a + b)
  {
    forall r, i: nat | r in a + b && q.Fixed(i) ensures Same(Col(row, q.ColOf(i)), q.arg(i, r)) {
      InEither(a, b, r);
      if r in b {
        OtherKey(q, row, other, a, b, r, i);
      }
    }
  }

  lemma OtherKey(q: Query, row: Row, other: Row, a: seq<Row>, b: seq<Row>, r: Row, i: nat)
    requires q.Valid() && KeyIs(q, row, a) && KeyIs(q, other, b) && SameKey(Key(row, q.Cols()), Key(other, q.Cols()))
    requires a != [] && r in b && q.Fixed(i)
    ensures Same(Col(row, q.ColOf(i)), q.arg(i, r))
  {
    var g :| g in q.groups && q.SameArg(i, g);
    var p :| 0 <= p < |q.groups| && q.groups[p] == g;
    KeyIsKey(q, row, a, a[0]);
    KeyIsKey(q, other, b, r);
    assert Same(q.KeyOf(a[0])[p], Key(row, q.Cols())[p]) && Same(Key(row, q.Cols())[p], Key(other, q.Cols())[p]);
    assert Same(Key(other, q.Cols())[p], q.KeyOf(r)[p]);
    assert q.arg(i, a[0]) == q.arg(g, a[0]) && q.arg(i, r) == q.arg(g, r);
  }

  /** The groups made of the first parts: their rows go up, and together they have the parts' members. */
  ghost predicate Collected(q: Query, groups: seq<Group>, mem: seq<seq<Row>>, ins: seq<Part>)
    requires q.Valid()
  {
    && |mem| == |groups| && Together(mem) == Members(ins) && (groups == [] <==> ins == [])
    && (forall j | 0 <= j < |groups| :: GroupIs(q, groups[j], mem[j]))
    && (forall j | 0 <= j < |groups| :: groups[j].row in RowsOf(ins))
    && GoUp(q.Cols(), groups)
  }

  ghost predicate GoUp(cols: seq<nat>, groups: seq<Group>) {
    forall j, k | 0 <= j < k < |groups| :: ByKey(cols)(groups[j].row, groups[k].row) < 0
  }

  lemma TogetherAppend(mem: seq<seq<Row>>, m: seq<Row>)
    ensures Together(mem + [m]) == Together(mem) + multiset(m)
  {
    assert (mem + [m])[..|mem|] == mem;
  }

  lemma TogetherExtend(mem: seq<seq<Row>>, more: seq<Row>)
    requires mem != []
    ensures Together(mem[|mem| - 1 := mem[|mem| - 1] + more]) == Together(mem) + multiset(more)
  {
    var n := |mem| - 1;
    assert mem[n := mem[n] + more][..n] == mem[..n];
  }

  lemma MembersStep(ins: seq<Part>, n: nat)
    requires n < |ins|
    ensures Members(ins[..n + 1]) == Members(ins[..n]) + multiset(ins[n].members)
    ensures RowsOf(ins[..n + 1]) == RowsOf(ins[..n]) + [ins[n].row]
  {
    assert ins[..n + 1][..n] == ins[..n];
  }

  /** The last group's row is not above the next row. */
  lemma LastNotAbove(cols: seq<nat>, ins: seq<Part>, n: nat, row: Row)
    requires n < |ins| && Sorted(RowsOf(ins), ByKey(cols)) && row in RowsOf(ins[..n])
    ensures ByKey(cols)(row, ins[n].row) <= 0
  {
    var i :| 0 <= i < n && RowsOf(ins[..n])[i] == row;
    assert RowsOf(ins)[i] == row && RowsOf(ins)[n] == ins[n].row;
  }

  lemma Strict(cols: seq<nat>, a: Row, b: Row, c: Row)
    requires ByKey(cols)(a, b) < 0 && ByKey(cols)(b, c) < 0
    ensures ByKey(cols)(a, c) < 0
  {
    ByKeyPreorder(cols);
    assert ByKey(cols)(c, a) == -ByKey(cols)(a, c) && ByKey(cols)(c, b) == -ByKey(cols)(b, c);
  }

  lemma GoesOnUp(cols: seq<nat>, groups: seq<Group>, g: Group)
    requires GoUp(cols, groups) && (groups != [] ==> ByKey(cols)(groups[|groups| - 1].row, g.row) < 0)
    ensures GoUp(cols, groups + [g])
  {
    forall j, k | 0 <= j < k < |groups + [g]| ensures ByKey(cols)((groups + [g])[j].row, (groups + [g])[k].row) < 0 {
      if k == |groups| && j < |groups| - 1 {
        Strict(cols, groups[j].row, groups[|groups| - 1].row, g.row);
      }
    }
  }

  lemma AddGroup(q: Query, groups: seq<Group>, mem: seq<seq<Row>>, ins: seq<Part>, n: nat, g: Group)
    requires q.Valid() && n < |ins| && Sorted(RowsOf(ins), ByKey(q.Cols())) && Collected(q, groups, mem, ins[..n])
    requires g.row == ins[n].row && GroupIs(q, g, ins[n].members)
    requires groups != [] ==> !SameKey(Key(groups[|groups| - 1].row, q.Cols()), Key(g.row, q.Cols()))
    ensures Collected(q, groups + [g], mem + [ins[n].members], ins[..n + 1])
  {
    TogetherAppend(mem, ins[n].members);
    MembersStep(ins, n);
    if groups != [] {
      LastNotAbove(q.Cols(), ins, n, groups[|groups| - 1].row);
      ByKeyZero(q.Cols(), groups[|groups| - 1].row, g.row);
    }
    GoesOnUp(q.Cols(), groups, g);
  }

  lemma ExtendGroup(q: Query, groups: seq<Group>, mem: seq<seq<Row>>, ins: seq<Part>, n: nat, g: Group)
    requires q.Valid() && n < |ins| && Collected(q, groups, mem, ins[..n]) && groups != []
    requires g.row == groups[|groups| - 1].row && GroupIs(q, g, mem[|mem| - 1] + ins[n].members)
    ensures Collected(q, groups[|groups| - 1 := g], mem[|mem| - 1 := mem[|mem| - 1] + ins[n].members], ins[..n + 1])
  {
    TogetherExtend(mem, ins[n].members);
    MembersStep(ins, n);
  }

  method KeysEqual(row1: Row, row2: Row, cols: seq<nat>) returns (equal: bool)
    ensures equal <==> SameKey(Key(row1, cols), Key(row2, cols))
  {
    for i := 0 to |cols|
      invariant forall k | 0 <= k < i :: Same(Key(row1, cols)[k], Key(row2, cols)[k])
    {
      SameCompare(Key(row1, cols)[i], Key(row2, cols)[i]);
      if NullsafeCompare(Col(row1, cols[i]), Col(row2, cols[i])) != 0 {
        return false;
      }
    }
    return true;
  }

  /** Goes through the sorted rows once; a row joins the last group or begins a new one. */
  method Collect(plan: Plan, ghost q: Query, rows: seq<Row>, ghost ins: seq<Part>) returns (groups: seq<Group>, ghost mem: seq<seq<Row>>)
    requires PlanOf(q, plan) && rows == RowsOf(ins) && Sorted(rows, ByKey(q.Cols())) && forall p | p in ins :: PartIs(q, p)
    ensures Collected(q, groups, mem, ins)
  {
    groups, mem := [], [];
    for n := 0 to |rows|
      invariant Collected(q, groups, mem, ins[..n])
    {
      assert ins[n] in ins;
      var last, equal := |groups| - 1, false;
      if |groups| > 0 {
        equal := KeysEqual(groups[last].row, rows[n], plan.groups);
      }
      if equal {
        var ctxs := UpdateCtxs(plan, rows[n], groups[last].ctxs);
        UpdatedGroupIs(q, groups[last], mem[last], ins[n], ctxs);
        ExtendGroup(q, groups, mem, ins, n, Group(groups[last].row, ctxs));
        groups, mem := groups[last := Group(groups[last].row, ctxs)], mem[last := mem[last] + ins[n].members];
      } else {
        var ctxs := NewCtxs(plan, Some(rows[n]));
        NewGroupIs(q, ins[n], ctxs);
        AddGroup(q, groups, mem, ins, n, Group(rows[n], ctxs));
        groups, mem := groups + [Group(rows[n], ctxs)], mem + [ins[n].members];
      }
    }
    assert ins[..|ins|] == ins;
  }

  // ---------------------------------------------------------------- the rows of the groups

  lemma {:induction false} AggrsPrefix(pd: bool, items: seq<Item>, m: nat)
    requires m <= |items|
    ensures AggrsOf(pd, items[..m]) <= AggrsOf(pd, items)
    decreases |items|
  {
    if m == |items| {
      assert items[..m] == items;
    } else {
      var n := |items| - 1;
      assert items[..n][..m] == items[..m];
      AggrsPrefix(pd, items[..n], m);
    }
  }

  /** The aggregates of an expression are where those of the expressions before it end. */
  lemma AggrsAt(pd: bool, items: seq<Item>, m: nat)
    requires m < |items|
    ensures AggrsOf(pd, items[..m]) + AggrsFor(pd, items[m], m, Off(pd, items, m)) <= AggrsOf(pd, items)
  {
    assert items[..m + 1][..m] == items[..m];
    AggrsPrefix(pd, items, m + 1);
  }

  lemma AvgAggrs(pd: bool, items: seq<Item>, m: nat)
    requires m < |items| && pd && items[m] == Agg(Avg)
    ensures var i, k, list := |AggrsOf(pd, items[..m])|, Off(pd, items, m), AggrsOf(pd, items);
      && i + 2 < |list| && list[i] == Aggregator(m, k, Avg) && list[i + 1] == Aggregator(m, k, AggrType.Sum)
      && list[i + 2] == Aggregator(m, k + 1, Count)
  {
    var i, k, list := |AggrsOf(pd, items[..m])|, Off(pd, items, m), AggrsOf(pd, items);
    AggrsAt(pd, items, m);
    var three := AggrsFor(pd, items[m], m, k);
    assert forall w | 0 <= w < 3 :: list[i + w] == three[w];
  }

  lemma OneAggr(pd: bool, items: seq<Item>, m: nat)
    requires m < |items| && items[m].Agg? && !(pd && items[m].typ == Avg)
    ensures var i, list := |AggrsOf(pd, items[..m])|, AggrsOf(pd, items);
      i < |list| && list[i] == Aggregator(m, Off(pd, items, m), items[m].typ)
  {
    AggrsAt(pd, items, m);
    assert AggrsOf(pd, items)[|AggrsOf(pd, items[..m])|] == AggrsFor(pd, items[m], m, Off(pd, items, m))[0];
  }

  lemma AggrsNext(pd: bool, items: seq<Item>, m: nat)
    requires m < |items|
    ensures |AggrsOf(pd, items[..m + 1])| == |AggrsOf(pd, items[..m])| + |AggrsFor(pd, items[m], m, Off(pd, items, m))|
    ensures CountCols(pd, items[..m + 1]) == CountCols(pd, items[..m]) + if pd && items[m] == Agg(Avg) then {Off(pd, items, m) + 1} else {}
  {
    assert items[..m + 1][..m] == items[..m];
  }

  /** The columns that hold the counts of averages. */
  function CountCols(pd: bool, items: seq<Item>): (s: set<nat>) {
    if items == [] then {}
    else
      var n := |items| - 1;
      CountCols(pd, items[..n]) + if pd && items[n] == Agg(Avg) then {Columns(pd, items[..n]) + 1} else {}
  }

  /** The results of the first expressions are in place, the other columns are as they were; `ok` says
      that what was kept for the aggregates stands for the members. */
  ghost predicate DoneTo(ok: bool, q: Query, row: Row, x: Row, m: nat, members: seq<Row>) {
    && m <= |q.items| && |x| == |row| >= Columns(q.pd, q.items)
    && (forall i: nat | i < m :: ItemDone(ok, q, row, x, i, members))
    && (forall c | q.ColOf(m) <= c < |x| :: x[c] == row[c])
  }

  ghost predicate ItemDone(ok: bool, q: Query, row: Row, x: Row, i: nat, members: seq<Row>)
    requires i < |q.items|
  {
    if q.items[i].Plain? then Col(x, q.ColOf(i)) == Col(row, q.ColOf(i))
    else ok ==> Same(Col(x, q.ColOf(i)), SqlAggregate(q.items[i].typ, q.Args(i, members)))
  }

  lemma DonePlain(ok: bool, q: Query, row: Row, x: Row, m: nat, members: seq<Row>)
    requires DoneTo(ok, q, row, x, m, members) && m < |q.items| && q.items[m].Plain?
    ensures DoneTo(ok, q, row, x, m + 1, members)
  {
    OffBounds(q.pd, q.items, m);
  }

  lemma DoneAgg(ok: bool, q: Query, row: Row, x: Row, m: nat, members: seq<Row>, v: Value)
    requires DoneTo(ok, q, row, x, m, members) && m < |q.items| && q.items[m].Agg?
    requires ok ==> Same(v, SqlAggregate(q.items[m].typ, q.Args(m, members)))
    ensures Off(q.pd, q.items, m) < |x| && DoneTo(ok, q, row, x[Off(q.pd, q.items, m) := v], m + 1, members)
  {
    OffBounds(q.pd, q.items, m);
    var x' := x[Off(q.pd, q.items, m) := v];
    forall i: nat | i < m ensures ItemDone(ok, q, row, x', i, members) {
      OffMonotone(q.pd, q.items, i, m);
      assert ItemDone(ok, q, row, x, i, members);
    }
    assert ItemDone(ok, q, row, x', m, members);
  }

  /** The next aggregate belongs to the next expression that is not plain. */
  lemma {:induction false} SkipPlain(ok: bool, q: Query, row: Row, x: Row, m: nat, members: seq<Row>, i: nat) returns (m': nat)
    requires DoneTo(ok, q, row, x, m, members) && i == |AggrsOf(q.pd, q.items[..m])| < |q.Aggrs()|
    ensures m <= m' < |q.items| && q.items[m'].Agg? && DoneTo(ok, q, row, x, m', members) && i == |AggrsOf(q.pd, q.items[..m'])|
    ensures CountCols(q.pd, q.items[..m']) == CountCols(q.pd, q.items[..m])
    decreases |q.items| - m
  {
    assert q.items[..|q.items|] == q.items;
    if q.items[m].Agg? {
      m' := m;
    } else {
      DonePlain(ok, q, row, x, m, members);
      AggrsNext(q.pd, q.items, m);
      m' := SkipPlain(ok, q, row, x, m + 1, members, i);
    }
  }

  lemma NoneLeft(q: Query, m: nat)
    requires m < |q.items| && |AggrsOf(q.pd, q.items[..m])| == |q.Aggrs()|
    ensures q.items[m].Plain?
  {
    AggrsAt(q.pd, q.items, m);
  }

  /** After the last aggregate there are only plain expressions. */
  lemma {:induction false} SkipRest(ok: bool, q: Query, row: Row, x: Row, m: nat, members: seq<Row>)
    requires DoneTo(ok, q, row, x, m, members) && |AggrsOf(q.pd, q.items[..m])| == |q.Aggrs()|
    ensures DoneTo(ok, q, row, x, |q.items|, members) && CountCols(q.pd, q.items) == CountCols(q.pd, q.items[..m])
    decreases |q.items| - m
  {
    if m == |q.items| {
      assert q.items[..m] == q.items;
    } else {
      NoneLeft(q, m);
      DonePlain(ok, q, row, x, m, members);
      AggrsNext(q.pd, q.items, m);
      SkipRest(ok, q, row, x, m + 1, members);
    }
  }

  /** The results of the first expressions are in place, and the aggregates from the i-th on are left. */
  ghost predicate Making(ok: bool, q: Query, row: Row, x: Row, m: nat, members: seq<Row>, i: nat, removed: set<nat>) {
    DoneTo(ok, q, row, x, m, members) && i == |AggrsOf(q.pd, q.items[..m])| && i <= |q.Aggrs()| && removed == CountCols(q.pd, q.items[..m])
  }

  lemma AvgCtxs(q: Query, ctxs: seq<Ctx>, members: seq<Row>, m: nat, i: nat)
    requires CtxsAre(q, ctxs, members) && q.pd && m < |q.items| && q.items[m] == Agg(Avg) && i == |AggrsOf(q.pd, q.items[..m])|
    ensures i + 2 < |q.Aggrs()| && q.Aggrs()[i] == Aggregator(m, Off(q.pd, q.items, m), Avg)
    ensures CtxIs(true, AggrType.Sum, ctxs[i + 1], q.Args(m, members)) && CtxIs(true, AggrType.Count, ctxs[i + 2], q.Args(m, members))
  {
    AvgAggrs(q.pd, q.items, m);
    assert CtxIs(q.pd, q.Aggrs()[i + 1].typ, ctxs[i + 1], q.Args(q.Aggrs()[i + 1].item, members));
    assert CtxIs(q.pd, q.Aggrs()[i + 2].typ, ctxs[i + 2], q.Args(q.Aggrs()[i + 2].item, members));
  }

  lemma MadeAvg(ok: bool, q: Query, row: Row, x: Row, m: nat, members: seq<Row>, i: nat, removed: set<nat>, ctxs: seq<Ctx>)
    requires Making(ok, q, row, x, m, members, i, removed) && |ctxs| == |q.Aggrs()| && (ok ==> CtxsAre(q, ctxs, members)) && q.pd && m < |q.items| && q.items[m] == Agg(Avg)
    ensures i + 2 < |q.Aggrs()| && q.Aggrs()[i].typ == Avg && q.Aggrs()[i].index < |x|
    ensures Making(ok, q, row, x[q.Aggrs()[i].index := NullsafeDiv(ctxs[i + 1].val, ctxs[i + 2].val)], m + 1, members, i + 3,
                   removed + {q.Aggrs()[i].index + 1})
  {
    AvgAggrs(q.pd, q.items, m);
    AggrsNext(q.pd, q.items, m);
    if ok {
      AvgCtxs(q, ctxs, members, m, i);
      AverageIs(ctxs[i + 1], ctxs[i + 2], q.Args(m, members));
    }
    DoneAgg(ok, q, row, x, m, members, NullsafeDiv(ctxs[i + 1].val, ctxs[i + 2].val));
  }

  lemma MadeOne(ok: bool, q: Query, row: Row, x: Row, m: nat, members: seq<Row>, i: nat, removed: set<nat>, ctxs: seq<Ctx>)
    requires Making(ok, q, row, x, m, members, i, removed) && |ctxs| == |q.Aggrs()| && (ok ==> CtxsAre(q, ctxs, members))
    requires m < |q.items| && q.items[m].Agg? && !(q.pd && q.items[m].typ == Avg)
    ensures i < |q.Aggrs()| && q.Aggrs()[i].typ == q.items[m].typ && q.Aggrs()[i].index < |x|
    ensures Making(ok, q, row, x[q.Aggrs()[i].index := ResultOf(q.pd, q.Aggrs()[i], ctxs[i])], m + 1, members, i + 1, removed)
  {
    OneAggr(q.pd, q.items, m);
    AggrsNext(q.pd, q.items, m);
    if ok {
      ResultIs(q.pd, q.Aggrs()[i], ctxs[i], q.Args(m, members));
    }
    DoneAgg(ok, q, row, x, m, members, ResultOf(q.pd, q.Aggrs()[i], ctxs[i]));
  }

  /** The next aggregate, which may be the first of the three of an average. */
  lemma NextMade(ok: bool, q: Query, row: Row, x: Row, m: nat, members: seq<Row>, i: nat, removed: set<nat>, ctxs: seq<Ctx>) returns (m': nat)
    requires Making(ok, q, row, x, m, members, i, removed) && i < |q.Aggrs()| == |ctxs| && (ok ==> CtxsAre(q, ctxs, members))
    ensures q.Aggrs()[i].index < |x|
    ensures if q.pd && q.Aggrs()[i].typ == Avg then
              && i + 2 < |q.Aggrs()|
              && Making(ok, q, row, x[q.Aggrs()[i].index := NullsafeDiv(ctxs[i + 1].val, ctxs[i + 2].val)], m', members, i + 3,
                        removed + {q.Aggrs()[i].index + 1})
            else
              Making(ok, q, row, x[q.Aggrs()[i].index := ResultOf(q.pd, q.Aggrs()[i], ctxs[i])], m', members, i + 1, removed)
  {
    var k := SkipPlain(ok, q, row, x, m, members, i);
    if q.pd && q.items[k].typ == Avg {
      MadeAvg(ok, q, row, x, k, members, i, removed, ctxs);
    } else {
      MadeOne(ok, q, row, x, k, members, i, removed, ctxs);
    }
    m' := k + 1;
  }

  /** The row of a group, with the columns to drop: an average takes the place of its sum, and its count
      goes. */
  method GetResults(ghost ok: bool, plan: Plan, ghost q: Query, ctxs: seq<Ctx>, row: Row, ghost members: seq<Row>) returns (x: Row, removed: set<nat>)
    requires PlanOf(q, plan) && |row| >= Columns(q.pd, q.items) && |ctxs| == |q.Aggrs()| && (ok ==> CtxsAre(q, ctxs, members))
    ensures DoneTo(ok, q, row, x, |q.items|, members) && removed == CountCols(q.pd, q.items)
  {
    var aggrs := plan.normal;
    x, removed := row, {};
    ghost var m := 0;
    var i := 0;
    while i < |aggrs|
      invariant Making(ok, q, row, x, m, members, i, removed)
      decreases |aggrs| - i
    {
      m := NextMade(ok, q, row, x, m, members, i, removed, ctxs);
      if plan.pd && aggrs[i].typ == Avg {
        x := x[aggrs[i].index := NullsafeDiv(ctxs[i + 1].val, ctxs[i + 2].val)];
        removed := removed + {aggrs[i].index + 1};
        i := i + 2;
      } else {
        x := x[aggrs[i].index := ResultOf(plan.pd, aggrs[i], ctxs[i])];
      }
      i := i + 1;
    }
    SkipRest(ok, q, row, x, m, members);
  }

  // ---------------------------------------------------------------- dropping the counts

  lemma {:induction false} RemovedSame(x: Row, a: set<nat>, b: set<nat>)
    requires forall c: nat | c < |x| :: c in a <==> c in b
    ensures RemoveColumns(x, a) == RemoveColumns(x, b)
    decreases |x|
  {
    if x != [] {
      RemovedSame(x[..|x| - 1], a, b);
    }
  }

  lemma {:induction false} CountColsBelow(pd: bool, items: seq<Item>)
    ensures forall c | c in CountCols(pd, items) :: c < Columns(pd, items)
    decreases |items|
  {
    if items != [] {
      CountColsBelow(pd, items[..|items| - 1]);
    }
  }

  lemma RemoveStep(x: Row, k: nat, removed: set<nat>)
    requires k < |x|
    ensures RemoveColumns(x[..k + 1], removed) == RemoveColumns(x[..k], removed) + if k in removed then [] else [x[k]]
  {
    assert x[..k + 1][..k] == x[..k];
  }

  /** The last expression's columns: its first one stays, the count of an average goes. */
  lemma RemovedLast(pd: bool, items: seq<Item>, x: Row)
    requires items != [] && |x| == Columns(pd, items)
    ensures var k := Columns(pd, items[..|items| - 1]);
      k < |x| && RemoveColumns(x, CountCols(pd, items)) == RemoveColumns(x[..k], CountCols(pd, items[..|items| - 1])) + [x[k]]
  {
    var n := |items| - 1;
    var k, removed := Columns(pd, items[..n]), CountCols(pd, items);
    CountColsBelow(pd, items[..n]);
    RemovedSame(x[..k], removed, CountCols(pd, items[..n]));
    RemovedTail(x, k, removed);
  }

  lemma RemovedTail(x: Row, k: nat, removed: set<nat>)
    requires k !in removed && (|x| == k + 1 || (|x| == k + 2 && k + 1 in removed))
    ensures RemoveColumns(x, removed) == RemoveColumns(x[..k], removed) + [x[k]]
  {
    RemoveStep(x, k, removed);
    assert x[..|x|] == x;
    if |x| == k + 2 {
      RemoveStep(x, k + 1, removed);
    }
  }

  /** Columns behind the ones to drop stay as they are. */
  lemma {:induction false} RemovedRest(x: Row, k: nat, removed: set<nat>)
    requires k <= |x| && forall c | c in removed :: c < k
    ensures RemoveColumns(x, removed) == RemoveColumns(x[..k], removed) + x[k..]
    decreases |x|
  {
    if k == |x| {
      assert x[..k] == x;
    } else {
      var n := |x| - 1;
      RemovedRest(x[..n], k, removed);
      assert x[..n][..k] == x[..k] && x[k..] == x[..n][k..] + [x[n]];
    }
  }

  /** After the counts are dropped, every expression is at its own place in the select list, and the columns
      behind the list follow. */
  lemma Removed(pd: bool, items: seq<Item>, x: Row, i: nat)
    requires |x| >= Columns(pd, items)
    ensures |RemoveColumns(x, CountCols(pd, items))| == |items| + |x| - Columns(pd, items)
    ensures i < |items| ==> RemoveColumns(x, CountCols(pd, items))[i] == Col(x, Off(pd, items, i))
    ensures RemoveColumns(x, CountCols(pd, items))[|items|..] == x[Columns(pd, items)..]
  {
    var k := Columns(pd, items);
    CountColsBelow(pd, items);
    RemovedRest(x, k, CountCols(pd, items));
    RemovedWithin(pd, items, x[..k], i);
    if i < |items| {
      OffBounds(pd, items, i);
    }
  }

  lemma {:induction false} RemovedWithin(pd: bool, items: seq<Item>, x: Row, i: nat)
    requires |x| == Columns(pd, items)
    ensures |RemoveColumns(x, CountCols(pd, items))| == |items|
    ensures i < |items| ==> RemoveColumns(x, CountCols(pd, items))[i] == Col(x, Off(pd, items, i))
    decreases |items|
  {
    if items != [] {
      var n := |items| - 1;
      var k := Columns(pd, items[..n]);
      RemovedLast(pd, items, x);
      RemovedWithin(pd, items[..n], x[..k], i);
      if i < n {
        OffBounds(pd, items[..n], i);
        assert items[..n][..i] == items[..i];
      }
    }
  }

  /** The finished row of a group. */
  lemma FinishedIs(q: Query, row: Row, x: Row, members: seq<Row>)
    requires q.Valid() && DoneTo(true, q, row, x, |q.items|, members) && KeyIs(q, row, members)
    ensures OutIs(q, RemoveColumns(x, CountCols(q.pd, q.items)), members)
  {
    var out := RemoveColumns(x, CountCols(q.pd, q.items));
    Removed(q.pd, q.items, x, 0);
    forall i: nat | i < |q.items| ensures out[i] == Col(x, q.ColOf(i)) && ItemDone(true, q, row, x, i, members) {
      Removed(q.pd, q.items, x, i);
    }
    forall r, i: nat | r in members && q.Fixed(i) ensures Same(out[i], q.arg(i, r)) {
      assert ItemDone(true, q, row, x, i, members);
    }
  }

  /** The rows of all groups. */
  method Finish(plan: Plan, ghost q: Query, groups: seq<Group>, ghost mem: seq<seq<Row>>) returns (out: seq<Row>)
    requires PlanOf(q, plan) && |mem| == |groups| && forall j | 0 <= j < |groups| :: GroupIs(q, groups[j], mem[j])
    ensures |out| == |groups| && forall j | 0 <= j < |out| :: OutIs(q, out[j], mem[j])
  {
    out := [];
    for j := 0 to |groups|
      invariant |out| == j && forall k | 0 <= k < j :: OutIs(q, out[k], mem[k])
    {
      assert GroupIs(q, groups[j], mem[j]);
      var x, removed := GetResults(true, plan, q, groups[j].ctxs, groups[j].row, mem[j]);
      FinishedIs(q, groups[j].row, x, mem[j]);
      out := out + [RemoveColumns(x, removed)];
    }
  }

  // ---------------------------------------------------------------- the operator

  lemma MembersOneKey(q: Query, row: Row, members: seq<Row>)
    requires q.Valid() && KeyIs(q, row, members)
    ensures OneKey(q, members)
  {
    forall r, s | r in members && s in members ensures SameKey(q.KeyOf(r), q.KeyOf(s)) {
      KeyIsKey(q, row, members, r);
      KeyIsKey(q, row, members, s);
    }
  }

  lemma MembersApart(q: Query, a: Row, as': seq<Row>, b: Row, bs: seq<Row>)
    requires q.Valid() && KeyIs(q, a, as') && KeyIs(q, b, bs) && ByKey(q.Cols())(a, b) < 0
    ensures KeysApart(q, as', bs)
  {
    ByKeyZero(q.Cols(), a, b);
    forall r, s | r in as' && s in bs ensures !SameKey(q.KeyOf(r), q.KeyOf(s)) {
      KeyIsKey(q, a, as', r);
      KeyIsKey(q, b, bs, s);
      if SameKey(q.KeyOf(r), q.KeyOf(s)) {
        assert SameKey(Key(a, q.Cols()), Key(b, q.Cols()));
      }
    }
  }

  /** Without GROUP BY there is one group. */
  lemma OneGroup(q: Query, groups: seq<Group>)
    requires q.Valid() && q.groups == [] && GoUp(q.Cols(), groups) && groups != []
    ensures |groups| == 1
  {
    if |groups| > 1 {
      ByKeyZero(q.Cols(), groups[0].row, groups[1].row);
    }
  }

  lemma CollectedGroupBy(q: Query, groups: seq<Group>, mem: seq<seq<Row>>, ins: seq<Part>, out: seq<Row>)
    requires q.Valid() && Collected(q, groups, mem, ins) && (q.groups == [] ==> ins != [])
    requires |out| == |groups| && forall j | 0 <= j < |out| :: OutIs(q, out[j], mem[j])
    ensures GroupBy(q, out, mem, Members(ins))
  {
    if q.groups == [] {
      OneGroup(q, groups);
    }
    forall j | 0 <= j < |mem| ensures OneKey(q, mem[j]) && (q.groups != [] ==> mem[j] != []) {
      assert GroupIs(q, groups[j], mem[j]);
      MembersOneKey(q, groups[j].row, mem[j]);
    }
    forall j, k | 0 <= j < k < |mem| ensures KeysApart(q, mem[j], mem[k]) {
      assert GroupIs(q, groups[j], mem[j]) && GroupIs(q, groups[k], mem[k]);
      MembersApart(q, groups[j].row, mem[j], groups[k].row, mem[k]);
    }
  }

  /** The one row for no rows at all: right without GROUP BY, when the rows were not aggregated before. */
  method NoRows(plan: Plan, ghost q: Query, width: nat) returns (out: seq<Row>)
    requires PlanOf(q, plan) && width >= Columns(q.pd, q.items)
    ensures |out| == 1
    ensures !q.pd && q.groups == [] ==> GroupBy(q, out, [[]], multiset{})
  {
    var ctxs := NewCtxs(plan, None);
    var nulls := seq(width, _ => Null);
    if !q.pd {
      forall i | 0 <= i < |ctxs| ensures CtxIs(q.pd, q.Aggrs()[i].typ, ctxs[i], q.Args(q.Aggrs()[i].item, [])) {
        NoRowsIs(q.pd, q.Aggrs()[i]);
        assert q.Args(q.Aggrs()[i].item, []) == [];
      }
    }
    var x, removed := GetResults(!q.pd, plan, q, ctxs, nulls, []);
    out := [RemoveColumns(x, removed)];
    if !q.pd {
      FinishedIs(q, nulls, x, []);
      EmptyTogether();
    }
  }

  lemma EmptyTogether()
    ensures Together([[]]) == multiset{}
  {
    var one: seq<seq<Row>> := [[]];
    assert one[..0] == [];
    assert Together(one) == Together(one[..0]) + multiset(one[0]);
  }

  /** GROUP BY with aggregates, and nothing to group. */
  predicate NothingToGroup(q: Query, rows: seq<Row>) {
    rows == [] && q.groups != [] && q.Aggrs() != []
  }

  /** GROUP BY has no row for no rows. */
  lemma NotGroupBy(q: Query, out: seq<Row>, groups: seq<seq<Row>>)
    requires q.groups != [] && |out| == 1
    ensures !GroupBy(q, out, groups, multiset{})
  {
    if |groups| == 1 && groups[0] != [] {
      SomeTogether(groups);
    }
  }

  lemma SomeTogether(groups: seq<seq<Row>>)
    requires |groups| == 1 && groups[0] != []
    ensures Together(groups) != multiset{}
  {
    assert Together(groups) == Together(groups[..0]) + multiset(groups[0]);
    assert groups[0][0] in Together(groups);
  }

  /** The operator on rows or on partial results, which come in any order and may have columns behind those of
      the select list: the result is that of GROUP BY over all rows behind them, except when there is nothing
      to group, where it has one row too many. */
  method Aggregate(plan: Plan, ghost q: Query, rows: seq<Row>, width: nat, ghost ins: seq<Part>) returns (out: seq<Row>, ghost mem: seq<seq<Row>>)
    requires PlanOf(q, plan) && rows == RowsOf(ins) && width >= Columns(q.pd, q.items) && forall p | p in ins :: PartIs(q, p)
    requires q.Aggrs() != [] || q.groups != []
    requires q.pd && q.groups == [] ==> ins != []
    ensures !NothingToGroup(q, rows) ==> GroupBy(q, out, mem, Members(ins))
    ensures NothingToGroup(q, rows) ==> |out| == 1 && forall groups :: !GroupBy(q, out, groups, Members(ins))
  {
    var sorted := rows;
    ghost var parts := ins;
    if |plan.groups| > 0 {
      ByKeyPreorder(plan.groups);
      sorted := Sort(rows, ByKey(plan.groups));
      parts := Along(ins, sorted);
      MembersPermutation(ins, parts);
      forall p | p in parts ensures PartIs(q, p) {
        SameMembers(parts, ins, p);
      }
    } else {
      NoKeySorted(rows);
    }
    var groups;
    groups, mem := Collect(plan, q, sorted, parts);
    if |groups| == 0 && |plan.normal| > 0 {
      out := NoRows(plan, q, width);
      mem := [[]];
      forall gs | q.groups != [] ensures !GroupBy(q, out, gs, multiset{}) {
        NotGroupBy(q, out, gs);
      }
    } else {
      out := Finish(plan, q, groups, mem);
      CollectedGroupBy(q, groups, mem, parts, out);
    }
  }

  lemma NoKeySorted(rows: seq<Row>)
    ensures Sorted(rows, ByKey([]))
  {
  }

  // ---------------------------------------------------------------- shards

  /** A shard's answer to the rewritten select: its groups, with partial results, or one row when there is
      no GROUP BY. */
  ghost predicate Answers(q: Query, parts: seq<Part>, rows: seq<Row>) {
    && (forall p | p in parts :: PartIs(q, p)) && Members(parts) == multiset(rows)
    && (q.pd && q.groups == [] ==> parts != [])
  }

  lemma {:induction false} MembersAppend(a: seq<Part>, b: seq<Part>)
    ensures Members(a + b) == Members(a) + Members(b)
    decreases |b|
  {
    if b == [] {
      assert a + b == a;
    } else {
      assert (a + b)[..|a + b| - 1] == a + b[..|b| - 1];
      MembersAppend(a, b[..|b| - 1]);
    }
  }

  lemma {:induction false} JoinedParts(q: Query, parts: seq<seq<Part>>, shards: seq<seq<Row>>)
    requires q.Valid() && |parts| == |shards| && forall i | 0 <= i < |shards| :: Answers(q, parts[i], shards[i])
    ensures Members(Concat(parts)) == Together(shards) && forall p | p in Concat(parts) :: PartIs(q, p)
    ensures q.pd && q.groups == [] && shards != [] ==> Concat(parts) != []
    decreases |shards|
  {
    if shards != [] {
      var n := |shards| - 1;
      JoinedParts(q, parts[..n], shards[..n]);
      assert Answers(q, parts[n], shards[n]);
      MembersAppend(Concat(parts[..n]), parts[n]);
      forall p | p in Concat(parts) ensures PartIs(q, p) {
        InEither(Concat(parts[..n]), parts[n], p);
      }
    }
  }

  /** Aggregates over shards: whatever each shard makes of its rows, merging the answers gives GROUP BY over
      the rows of all shards, unless there are no rows to group at all. */
  method MergeShards(plan: Plan, ghost q: Query, answers: seq<Row>, width: nat, ghost parts: seq<seq<Part>>, ghost shards: seq<seq<Row>>)
    returns (out: seq<Row>, ghost mem: seq<seq<Row>>)
    requires PlanOf(q, plan) && (q.Aggrs() != [] || q.groups != []) && shards != [] && |parts| == |shards|
    requires forall i | 0 <= i < |shards| :: Answers(q, parts[i], shards[i])
    requires answers == RowsOf(Concat(parts)) && width >= Columns(q.pd, q.items)
    ensures !NothingToGroup(q, answers) ==> GroupBy(q, out, mem, Together(shards))
    ensures NothingToGroup(q, answers) ==> |out| == 1 && forall groups :: !GroupBy(q, out, groups, Together(shards))
  {
    JoinedParts(q, parts, shards);
    out, mem := Aggregate(plan, q, answers, width, Concat(parts));
  }
}
