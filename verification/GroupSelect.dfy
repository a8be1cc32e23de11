/** From the GROUP BY clause to the grouped rows: when the columns the planner chooses for the clause are the
    ones it means. */
module GroupSelect {
  import opened Text
  import opened Bags
  import opened Values
  import opened AggregatePlan
  import opened AggregateValues
  import opened Aggregates

  /** The first plain expression of a name, or the number of expressions. */
  function FindNamed(items: seq<Item>, name: string): (i: nat)
    ensures i <= |items|
  {
    if items == [] then 0
    else
      var n := |items| - 1;
      var i := FindNamed(items[..n], name);
      if i < n then i else if items[n].Plain? && EqualFold(items[n].field, name) then n else |items|
  }

  lemma {:induction false} FindsFirst(items: seq<Item>, name: string)
    ensures FindNamed(items, name) < |items| ==> FirstNamed(items, name, FindNamed(items, name))
    ensures Named(items, name) ==> FindNamed(items, name) < |items|
    decreases |items|
  {
    if items != [] {
      var n := |items| - 1;
      FindsFirst(items[..n], name);
      if Named(items, name) {
        var i: nat :| i < |items| && items[i].Plain? && EqualFold(items[i].field, name);
        assert i < n ==> items[..n][i] == items[i];
      }
    }
  }

  lemma FirstIsFound(items: seq<Item>, name: string, i: nat)
    requires FirstNamed(items, name, i)
    ensures FindNamed(items, name) == i
  {
    assert Named(items, name);
    FindsFirst(items, name);
    var j := FindNamed(items, name);
    assert !(i < j) && !(j < i);
  }

  /** The expressions whose columns the plan groups by. */
  function FoundGroups(tuples: seq<Tuple>, groups: seq<nat>): (found: seq<nat>)
    ensures |found| == |groups|
  {
    seq(|groups|, k requires 0 <= k < |groups| => FindNamed(ItemsOf(tuples), NameOf(tuples, groups[k])))
  }

  /** The analysis accepts the select: GROUP BY names plain expressions of the list. */
  predicate Groupable(tuples: seq<Tuple>, groups: seq<nat>) {
    Supported(tuples) && forall g | g in groups :: g < |tuples| && Named(ItemsOf(tuples), NameOf(tuples, g))
  }

  /** Expressions that are the same have the same value. */
  ghost predicate ArgFits(tuples: seq<Tuple>, arg: Arg) {
    forall i: nat, j: nat, r | i < |tuples| && j < |tuples| && SameExpr(tuples[i], tuples[j]) :: arg(i, r) == arg(j, r)
  }

  /** The query as SQL means it, and the query the plan carries out. */
  function SqlQuery(tuples: seq<Tuple>, groups: seq<nat>, pd: bool, arg: Arg): (q: Query) {
    Query(pd, ItemsOf(tuples), groups, arg)
  }

  function Executed(tuples: seq<Tuple>, groups: seq<nat>, pd: bool, arg: Arg): (q: Query) {
    Query(pd, ItemsOf(tuples), FoundGroups(tuples, groups), arg)
  }

  /** The k-th GROUP BY expression is the same as the first plain expression of its name. */
  predicate OwnGroup(tuples: seq<Tuple>, g: nat) {
    var f := FindNamed(ItemsOf(tuples), NameOf(tuples, g));
    f < |tuples| && g < |tuples| && SameExpr(tuples[f], tuples[g])
  }

  predicate OwnGroups(tuples: seq<Tuple>, groups: seq<nat>) {
    forall g | g in groups :: OwnGroup(tuples, g)
  }

  lemma GroupFound(tuples: seq<Tuple>, groups: seq<nat>, k: nat)
    requires Groupable(tuples, groups) && k < |groups|
    ensures FirstNamed(ItemsOf(tuples), NameOf(tuples, groups[k]), FoundGroups(tuples, groups)[k])
  {
    assert groups[k] in groups;
    FindsFirst(ItemsOf(tuples), NameOf(tuples, groups[k]));
  }

  lemma ExecutedValid(tuples: seq<Tuple>, groups: seq<nat>, pd: bool, arg: Arg)
    requires Groupable(tuples, groups)
    ensures Executed(tuples, groups, pd, arg).Valid()
  {
    forall f | f in FoundGroups(tuples, groups) ensures f < |tuples| && ItemsOf(tuples)[f].Plain? {
      var k: nat :| k < |groups| && FoundGroups(tuples, groups)[k] == f;
      GroupFound(tuples, groups, k);
    }
  }

  /** A plan made by the analysis is the plan of the query it carries out. */
  lemma PlanCarriesOut(tuples: seq<Tuple>, groups: seq<nat>, pd: bool, arg: Arg, plan: Plan)
    requires Groupable(tuples, groups) && Planned(tuples, groups, pd, plan)
    ensures PlanOf(Executed(tuples, groups, pd, arg), plan)
  {
    var q := Executed(tuples, groups, pd, arg);
    ExecutedValid(tuples, groups, pd, arg);
    forall k | 0 <= k < |groups| ensures plan.groups[k] == q.Cols()[k] {
      var i: nat :| FirstNamed(ItemsOf(tuples), NameOf(tuples, groups[k]), i) && plan.groups[k] == Off(pd, ItemsOf(tuples), i);
      FirstIsFound(ItemsOf(tuples), NameOf(tuples, groups[k]), i);
    }
  }

  // ---------------------------------------------------------------- right groups

  /** Two queries that group by the same values. */
  ghost predicate SameGroups(q: Query, q': Query) {
    && q.pd == q'.pd && q.items == q'.items && q.arg == q'.arg && |q.groups| == |q'.groups|
    && forall k | 0 <= k < |q.groups| :: q.SameArg(q.groups[k], q'.groups[k])
  }

  lemma OwnSame(tuples: seq<Tuple>, groups: seq<nat>, pd: bool, arg: Arg)
    requires Groupable(tuples, groups) && OwnGroups(tuples, groups) && ArgFits(tuples, arg)
    ensures SameGroups(SqlQuery(tuples, groups, pd, arg), Executed(tuples, groups, pd, arg))
  {
    var q, found := SqlQuery(tuples, groups, pd, arg), FoundGroups(tuples, groups);
    forall k | 0 <= k < |groups| ensures q.SameArg(groups[k], found[k]) {
      assert groups[k] in groups && OwnGroup(tuples, groups[k]);
    }
  }

  lemma SameFixed(q: Query, q': Query, i: nat)
    requires SameGroups(q, q')
    ensures q.Fixed(i) <==> q'.Fixed(i)
  {
    if q.Fixed(i) {
      var g :| g in q.groups && q.SameArg(i, g);
      var k :| 0 <= k < |q.groups| && q.groups[k] == g;
      assert q'.groups[k] in q'.groups && q'.SameArg(i, q'.groups[k]);
    }
    if q'.Fixed(i) {
      var g :| g in q'.groups && q'.SameArg(i, g);
      var k :| 0 <= k < |q.groups| && q'.groups[k] == g;
      assert q.groups[k] in q.groups && q.SameArg(i, q.groups[k]);
    }
  }

  lemma SameKeys(q: Query, q': Query, r: Row)
    requires SameGroups(q, q')
    ensures q.KeyOf(r) == q'.KeyOf(r)
  {
    forall k | 0 <= k < |q.groups| ensures q.KeyOf(r)[k] == q'.KeyOf(r)[k] {
      assert q.SameArg(q.groups[k], q'.groups[k]);
    }
  }

  lemma SameOut(q: Query, q': Query, row: Row, members: seq<Row>)
    requires SameGroups(q, q') && OutIs(q', row, members)
    ensures OutIs(q, row, members)
  {
    forall r, i: nat | r in members && q.Fixed(i) ensures Same(row[i], q.arg(i, r)) {
      SameFixed(q, q', i);
    }
    forall i | 0 <= i < |q.items| && q.items[i].Agg? ensures Same(row[i], SqlAggregate(q.items[i].typ, q.Args(i, members))) {
      assert q.Args(i, members) == q'.Args(i, members);
    }
  }

  /** Grouping by the same values is grouping alike. */
  lemma SameGroupBy(q: Query, q': Query, out: seq<Row>, mem: seq<seq<Row>>, all: multiset<Row>)
    requires SameGroups(q, q') && GroupBy(q', out, mem, all)
    ensures GroupBy(q, out, mem, all)
  {
    forall j | 0 <= j < |out| ensures OutIs(q, out[j], mem[j]) {
      SameOut(q, q', out[j], mem[j]);
    }
    forall j | 0 <= j < |mem| ensures OneKey(q, mem[j]) {
      SameOneKey(q, q', mem[j]);
    }
    forall j, k | 0 <= j < k < |mem| ensures KeysApart(q, mem[j], mem[k]) {
      SameApart(q, q', mem[j], mem[k]);
    }
  }

  lemma SameOneKey(q: Query, q': Query, members: seq<Row>)
    requires SameGroups(q, q') && OneKey(q', members)
    ensures OneKey(q, members)
  {
    forall r, s | r in members && s in members ensures SameKey(q.KeyOf(r), q.KeyOf(s)) {
      SameKeys(q, q', r);
      SameKeys(q, q', s);
    }
  }

  lemma SameApart(q: Query, q': Query, a: seq<Row>, b: seq<Row>)
    requires SameGroups(q, q') && KeysApart(q', a, b)
    ensures KeysApart(q, a, b)
  {
    forall r, s | r in a && s in b ensures !SameKey(q.KeyOf(r), q.KeyOf(s)) {
      SameKeys(q, q', r);
      SameKeys(q, q', s);
    }
  }

  /** A shard's answer to the one is an answer to the other. */
  lemma SameAnswers(q: Query, q': Query, parts: seq<Part>, rows: seq<Row>)
    requires SameGroups(q, q') && Answers(q, parts, rows)
    ensures Answers(q', parts, rows)
  {
    forall p | p in parts ensures PartIs(q', p) {
      assert PartIs(q, p);
      SamePart(q, q', p);
    }
  }

  lemma SamePart(q: Query, q': Query, p: Part)
    requires SameGroups(q, q') && PartIs(q, p)
    ensures PartIs(q', p)
  {
    forall r, i: nat | r in p.members && q'.Fixed(i) ensures Same(Col(p.row, q'.ColOf(i)), q'.arg(i, r)) {
      SameFixed(q, q', i);
    }
    forall a | a in q'.Aggrs() ensures CellIs(q'.pd, a.typ, Col(p.row, a.index), q'.Args(a.item, p.members)) {
      assert q'.Args(a.item, p.members) == q.Args(a.item, p.members);
    }
  }

  // ---------------------------------------------------------------- the select

  /** The shards answer the select as SQL means it; where the plan groups by other expressions, the answers are also
      ones to the query it carries out, as single rows always are. */
  ghost predicate Answered(tuples: seq<Tuple>, groups: seq<nat>, pd: bool, arg: Arg, parts: seq<Part>, rows: seq<Row>) {
    && Answers(SqlQuery(tuples, groups, pd, arg), parts, rows)
    && (OwnGroups(tuples, groups) || Answers(Executed(tuples, groups, pd, arg), parts, rows))
  }

  lemma AnsweredExecuted(tuples: seq<Tuple>, groups: seq<nat>, pd: bool, arg: Arg, parts: seq<Part>, rows: seq<Row>)
    requires Groupable(tuples, groups) && ArgFits(tuples, arg) && Answered(tuples, groups, pd, arg, parts, rows)
    ensures Answers(Executed(tuples, groups, pd, arg), parts, rows)
  {
    if OwnGroups(tuples, groups) {
      OwnSame(tuples, groups, pd, arg);
      SameAnswers(SqlQuery(tuples, groups, pd, arg), Executed(tuples, groups, pd, arg), parts, rows);
    }
  }

  /** A select with aggregates or GROUP BY over shards, planned and merged. It is refused exactly when an expression
      is not supported or a GROUP BY expression is not a plain one. The plan groups the rows by the first plain
      expressions of the GROUP BY names; this is what SQL means when those are the GROUP BY expressions. */
  method GroupSelect(tuples: seq<Tuple>, groups: seq<nat>, pd: bool, ghost arg: Arg, answers: seq<Row>, width: nat,
                     ghost parts: seq<seq<Part>>, ghost shards: seq<seq<Row>>)
    returns (out: Option<seq<Row>>, ghost mem: seq<seq<Row>>)
    requires ArgFits(tuples, arg) && shards != [] && |parts| == |shards| && forall g | g in groups :: g < |tuples|
    requires groups != [] || exists i | 0 <= i < |tuples| :: tuples[i].aggrFunc.Known?
    requires forall i | 0 <= i < |shards| :: Answered(tuples, groups, pd, arg, parts[i], shards[i])
    requires answers == RowsOf(Concat(parts)) && width >= Columns(pd, ItemsOf(tuples))
    ensures out.Some? <==> Groupable(tuples, groups)
    ensures out.Some? && !NothingToGroup(SqlQuery(tuples, groups, pd, arg), answers) ==>
              GroupBy(Executed(tuples, groups, pd, arg), out.value, mem, Together(shards))
    ensures out.Some? && !NothingToGroup(SqlQuery(tuples, groups, pd, arg), answers) && OwnGroups(tuples, groups) ==>
              GroupBy(SqlQuery(tuples, groups, pd, arg), out.value, mem, Together(shards))
    ensures out.Some? && NothingToGroup(SqlQuery(tuples, groups, pd, arg), answers) ==> |out.value| == 1
  {
    var plan := Analyze(tuples, groups, pd);
    if plan.None? {
      return None, [];
    }
    PlanCarriesOut(tuples, groups, pd, arg, plan.value);
    SomethingToDo(tuples, groups, pd, arg);
    forall i | 0 <= i < |shards| ensures Answers(Executed(tuples, groups, pd, arg), parts[i], shards[i]) {
      assert Answered(tuples, groups, pd, arg, parts[i], shards[i]);
      AnsweredExecuted(tuples, groups, pd, arg, parts[i], shards[i]);
    }
    var rows;
    rows, mem := MergeShards(plan.value, Executed(tuples, groups, pd, arg), answers, width, parts, shards);
    if OwnGroups(tuples, groups) && !NothingToGroup(SqlQuery(tuples, groups, pd, arg), answers) {
      OwnSame(tuples, groups, pd, arg);
      SameGroupBy(SqlQuery(tuples, groups, pd, arg), Executed(tuples, groups, pd, arg), rows, mem, Together(shards));
    }
    out := Some(rows);
  }

  lemma SomethingToDo(tuples: seq<Tuple>, groups: seq<nat>, pd: bool, arg: Arg)
    requires groups != [] || exists i | 0 <= i < |tuples| :: tuples[i].aggrFunc.Known?
    ensures var q := Executed(tuples, groups, pd, arg); q.groups != [] || q.Aggrs() != []
  {
    if groups == [] {
      var i: nat :| i < |tuples| && tuples[i].aggrFunc.Known?;
      AggrsAt(pd, ItemsOf(tuples), i);
    }
  }

  // ---------------------------------------------------------------- single rows

  /** What a shard answers, in one column of the rewritten list, for a group of one row. */
  function CellFor(q: Query, e: SelExpr, r: Row): (v: Value) {
    match e
    case Orig(i) => if i < |q.items| && q.items[i].Agg? then SqlAggregate(q.items[i].typ, q.Args(i, [r])) else q.arg(i, r)
    case ArgOf(i) => q.arg(i, r)
    case SumOf(i) => SqlAggregate(AggrType.Sum, q.Args(i, [r]))
    case CountOf(i) => SqlAggregate(AggrType.Count, q.Args(i, [r]))
  }

  function Single(q: Query, r: Row): (p: Part) {
    var es := Expanded(q.pd, q.items);
    Part(seq(|es|, c requires 0 <= c < |es| => CellFor(q, es[c], r)), [r])
  }

  /** A group of one row is an answer to any query over the same expressions, whatever it groups by. */
  lemma SingleIsPart(q: Query, q': Query, r: Row)
    requires q'.pd == q.pd && q'.items == q.items && q'.arg == q.arg
    ensures PartIs(q', Single(q, r))
  {
    var p := Single(q, r);
    forall a | a in q'.Aggrs() ensures CellIs(q'.pd, a.typ, Col(p.row, a.index), q'.Args(a.item, p.members)) {
      AggrsReadOwn(q.pd, q.items, a);
      assert q'.Args(a.item, p.members) == q.Args(a.item, [r]);
    }
    forall s, i: nat | s in p.members && q'.Fixed(i) ensures Same(Col(p.row, q'.ColOf(i)), q'.arg(i, s)) {
      ExpandedAt(q.pd, q.items, i, 0);
    }
  }

  // ---------------------------------------------------------------- wrong groups

  /** The value of the expression that is the same as the g-th, NULL for all others. */
  function OnlyOf(tuples: seq<Tuple>, g: nat): (arg: Arg)
    requires g < |tuples|
  {
    (i: nat, r: Row) => if i < |tuples| && SameExpr(tuples[i], tuples[g]) then Col(r, 0) else Null
  }

  const Zero: Row := [Val(0.0, false, "0")]
  const One: Row := [Val(1.0, true, "1")]

  /** No expression that the plan groups by is the same as one that is not its own first. */
  lemma FoundOthers(tuples: seq<Tuple>, groups: seq<nat>, k: nat, g: nat)
    requires Groupable(tuples, groups) && k < |groups| && g in groups && !OwnGroup(tuples, g)
    ensures var f := FoundGroups(tuples, groups)[k]; f < |tuples| && !SameExpr(tuples[f], tuples[g])
  {
    var items, f := ItemsOf(tuples), FoundGroups(tuples, groups)[k];
    GroupFound(tuples, groups, k);
    if SameExpr(tuples[f], tuples[g]) {
      assert Classify(tuples[f]).Some?;
      assert EqualFold(tuples[f].field, tuples[g].field);
      assert FirstNamed(items, NameOf(tuples, g), f);
      FirstIsFound(items, NameOf(tuples, g), f);
    }
  }

  /** The row the plan makes of two rows that differ in the g-th expression only. */
  function OneOut(q: Query): (row: Row)
    ensures |row| == |q.items|
  {
    seq(|q.items|, i requires 0 <= i < |q.items| =>
      if q.items[i].Agg? then SqlAggregate(q.items[i].typ, q.Args(i, [Zero, One])) else q.arg(i, Zero))
  }

  lemma NullKeys(tuples: seq<Tuple>, groups: seq<nat>, pd: bool, g: nat, r: Row)
    requires Groupable(tuples, groups) && g in groups && !OwnGroup(tuples, g)
    ensures forall k | 0 <= k < |groups| :: Executed(tuples, groups, pd, OnlyOf(tuples, g)).KeyOf(r)[k] == Null
  {
    forall k | 0 <= k < |groups| ensures Executed(tuples, groups, pd, OnlyOf(tuples, g)).KeyOf(r)[k] == Null {
      FoundOthers(tuples, groups, k, g);
    }
  }

  lemma FixedNull(tuples: seq<Tuple>, groups: seq<nat>, pd: bool, g: nat, i: nat, r: Row)
    requires Groupable(tuples, groups) && g in groups && !OwnGroup(tuples, g)
    requires Executed(tuples, groups, pd, OnlyOf(tuples, g)).Fixed(i)
    ensures OnlyOf(tuples, g)(i, r) == Null
  {
    var q := Executed(tuples, groups, pd, OnlyOf(tuples, g));
    var f :| f in q.groups && q.SameArg(i, f);
    var k: nat :| k < |groups| && FoundGroups(tuples, groups)[k] == f;
    FoundOthers(tuples, groups, k, g);
  }

  /** The plan puts the two rows into one group. */
  lemma OneGroupMade(tuples: seq<Tuple>, groups: seq<nat>, pd: bool, g: nat)
    requires Groupable(tuples, groups) && g in groups && !OwnGroup(tuples, g)
    ensures var q := Executed(tuples, groups, pd, OnlyOf(tuples, g));
      GroupBy(q, [OneOut(q)], [[Zero, One]], multiset{Zero, One})
  {
    var q, mem := Executed(tuples, groups, pd, OnlyOf(tuples, g)), [[Zero, One]];
    forall r, i: nat | r in mem[0] && q.Fixed(i) ensures Same(OneOut(q)[i], q.arg(i, r)) {
      FixedNull(tuples, groups, pd, g, i, r);
      FixedNull(tuples, groups, pd, g, i, Zero);
    }
    NullKeys(tuples, groups, pd, g, Zero);
    NullKeys(tuples, groups, pd, g, One);
    assert OneKey(q, mem[0]);
    assert mem[..0] == [] && Together(mem) == Together(mem[..0]) + multiset(mem[0]);
  }

  /** SQL has two groups. */
  lemma TwoGroupsMeant(tuples: seq<Tuple>, groups: seq<nat>, pd: bool, g: nat, out: seq<Row>, mem: seq<seq<Row>>)
    requires Groupable(tuples, groups) && g in groups && |out| == 1
    ensures !GroupBy(SqlQuery(tuples, groups, pd, OnlyOf(tuples, g)), out, mem, multiset{Zero, One})
  {
    var q := SqlQuery(tuples, groups, pd, OnlyOf(tuples, g));
    if GroupBy(q, out, mem, multiset{Zero, One}) {
      assert mem[..0] == [] && Together(mem) == Together(mem[..0]) + multiset(mem[0]);
      assert Zero in multiset(mem[0]) && One in multiset(mem[0]);
      var k: nat :| k < |groups| && groups[k] == g;
      assert SameKey(q.KeyOf(Zero), q.KeyOf(One));
      assert Same(q.KeyOf(Zero)[k], q.KeyOf(One)[k]);
      assert SameExpr(tuples[g], tuples[g]);
      assert false;
    }
  }

  lemma OnlyOfFits(tuples: seq<Tuple>, g: nat)
    requires g < |tuples|
    ensures ArgFits(tuples, OnlyOf(tuples, g))
  {
  }

  /** Partial results that are answers both to the select and to the query the plan carries out. */
  ghost predicate PartsFit(tuples: seq<Tuple>, groups: seq<nat>, pd: bool, arg: Arg, parts: seq<Part>) {
    forall p | p in parts :: PartIs(SqlQuery(tuples, groups, pd, arg), p) && PartIs(Executed(tuples, groups, pd, arg), p)
  }

  /** What merging by the plan makes of the shards' answers is what SQL means, for all of them. */
  ghost predicate GroupsRight(tuples: seq<Tuple>, groups: seq<nat>, pd: bool) {
    forall arg: Arg, parts, out, mem |
      && ArgFits(tuples, arg) && PartsFit(tuples, groups, pd, arg, parts)
      && GroupBy(Executed(tuples, groups, pd, arg), out, mem, Members(parts)) ::
      exists mem' :: GroupBy(SqlQuery(tuples, groups, pd, arg), out, mem', Members(parts))
  }

  /** GROUP BY over shards is right for all rows if and only if each GROUP BY expression is the same as the first
      plain expression of its name. */
  lemma GroupsExact(tuples: seq<Tuple>, groups: seq<nat>, pd: bool)
    requires Groupable(tuples, groups)
    ensures GroupsRight(tuples, groups, pd) <==> OwnGroups(tuples, groups)
  {
    if OwnGroups(tuples, groups) {
      forall arg: Arg, parts, out, mem |
        && ArgFits(tuples, arg) && PartsFit(tuples, groups, pd, arg, parts)
        && GroupBy(Executed(tuples, groups, pd, arg), out, mem, Members(parts))
        ensures exists mem' :: GroupBy(SqlQuery(tuples, groups, pd, arg), out, mem', Members(parts))
      {
        OwnSame(tuples, groups, pd, arg);
        SameGroupBy(SqlQuery(tuples, groups, pd, arg), Executed(tuples, groups, pd, arg), out, mem, Members(parts));
      }
    } else {
      var g :| g in groups && !OwnGroup(tuples, g);
      NotRight(tuples, groups, pd, g);
    }
  }

  /** Two shards with a row each. */
  lemma TwoParts(tuples: seq<Tuple>, groups: seq<nat>, pd: bool, arg: Arg) returns (parts: seq<Part>)
    ensures PartsFit(tuples, groups, pd, arg, parts) && Members(parts) == multiset{Zero, One}
  {
    var q := SqlQuery(tuples, groups, pd, arg);
    var a, b := Single(q, Zero), Single(q, One);
    parts := [a] + [b];
    SingleIsPart(q, q, Zero);
    SingleIsPart(q, q, One);
    SingleIsPart(q, Executed(tuples, groups, pd, arg), Zero);
    SingleIsPart(q, Executed(tuples, groups, pd, arg), One);
    MembersAppend([a], [b]);
    OneMember(a);
    OneMember(b);
  }

  lemma OneMember(p: Part)
    ensures Members([p]) == multiset(p.members)
  {
    assert [p][..0] == [];
  }

  lemma NotRight(tuples: seq<Tuple>, groups: seq<nat>, pd: bool, g: nat)
    requires Groupable(tuples, groups) && g in groups && !OwnGroup(tuples, g)
    ensures !GroupsRight(tuples, groups, pd)
  {
    var arg := OnlyOf(tuples, g);
    var parts := TwoParts(tuples, groups, pd, arg);
    var out := [OneOut(Executed(tuples, groups, pd, arg))];
    OnlyOfFits(tuples, g);
    OneGroupMade(tuples, groups, pd, g);
    forall mem ensures !GroupBy(SqlQuery(tuples, groups, pd, arg), out, mem, Members(parts)) {
      TwoGroupsMeant(tuples, groups, pd, g, out, mem);
    }
  }

  // ---------------------------------------------------------------- t1.a and t2.a

  const FirstA: Tuple := Tuple(NoFunc, "a", "", true, "t1")
  const SecondA: Tuple := Tuple(NoFunc, "a", "", true, "t2")
  const CountAll: Tuple := Tuple(Known(Count), "count(*)", "", false, "")

  /** The first plain expression named like t2.a is t1.a. */
  lemma SecondNotOwn(tuples: seq<Tuple>)
    requires |tuples| >= 2 && tuples[0] == FirstA && tuples[1] == SecondA
    ensures !OwnGroup(tuples, 1)
  {
    assert Classify(FirstA) == Some(Plain("a"));
    assert FirstNamed(ItemsOf(tuples), NameOf(tuples, 1), 0);
    FirstIsFound(ItemsOf(tuples), NameOf(tuples, 1), 0);
    assert "t1"[1] != "t2"[1];
  }

  lemma FirstIsNamed(tuples: seq<Tuple>, groups: seq<nat>)
    requires |tuples| >= 2 && tuples[0] == FirstA && tuples[1] == SecondA && Supported(tuples) && forall g | g in groups :: g < 2
    ensures Groupable(tuples, groups)
  {
    forall g | g in groups ensures Named(ItemsOf(tuples), NameOf(tuples, g)) {
      assert Classify(tuples[0]) == Some(Plain("a")) && NameOf(tuples, g) == "a";
      assert ItemsOf(tuples)[0].Plain? && EqualFold(ItemsOf(tuples)[0].field, NameOf(tuples, g));
    }
  }

  /** SELECT t1.a, t2.a, COUNT(*) ... GROUP BY t2.a groups by t1.a. */
  lemma OtherTableGrouped(pd: bool)
    ensures FirstMatch(ByColumn("t2", "a"), [FirstA, SecondA, CountAll], 1)
    ensures !GroupsRight([FirstA, SecondA, CountAll], [1], pd)
  {
    var tuples := [FirstA, SecondA, CountAll];
    assert "t1"[1] != "t2"[1];
    SecondNotOwn(tuples);
    assert forall i | 0 <= i < 3 :: Classify(tuples[i]).Some?;
    FirstIsNamed(tuples, [1]);
    NotRight(tuples, [1], pd, 1);
  }

  /** SELECT DISTINCT t1.a, t2.a groups twice by t1.a. */
  lemma DistinctLosesRows(pd: bool)
    ensures !GroupsRight([FirstA, SecondA], DistinctGroups([FirstA, SecondA]), pd)
  {
    var tuples := [FirstA, SecondA];
    SecondNotOwn(tuples);
    assert forall i | 0 <= i < 2 :: Classify(tuples[i]).Some?;
    assert DistinctGroups(tuples)[1] == 1;
    FirstIsNamed(tuples, DistinctGroups(tuples));
    NotRight(tuples, DistinctGroups(tuples), pd, 1);
  }
}
