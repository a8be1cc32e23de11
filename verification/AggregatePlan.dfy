/** Planning aggregate functions: which columns the shards are asked for, and where they are found. */
module AggregatePlan {
  import opened Text
  import opened Bags
  import opened Values

  datatype AggrType = Sum | Count | Min | Max | Avg

  /** The function around a select expression: none, one of the five, or one that is not supported. */
  datatype Func = NoFunc | Known(typ: AggrType) | Unknown(name: string)

  /** A select expression: the aggregate function around it, if any, its column name or text, its alias,
      and the table when it is a column. */
  datatype Tuple = Tuple(aggrFunc: Func, field: string, alias: string, isCol: bool, table: string)

  /** Two select expressions that are the same: one column, or one text. */
  predicate SameExpr(t: Tuple, u: Tuple) {
    && t.isCol == u.isCol
    && if t.isCol then EqualFold(t.field, u.field) && t.table == u.table else t.field == u.field
  }

  /** What a select expression is to the planner. */
  datatype Item = Plain(field: string) | Agg(typ: AggrType)

  /** A column of the rewritten select list: the expression itself, the argument of its aggregate
      function, or the sum or the count that its average is made of. */
  datatype SelExpr = Orig(item: nat) | ArgOf(item: nat) | SumOf(item: nat) | CountOf(item: nat)

  /** An aggregate to compute: the column it reads, and the select expression it belongs to. */
  datatype Aggregator = Aggregator(item: nat, index: nat, typ: AggrType)

  /** None for `*` and for functions that are not supported. */
  function Classify(t: Tuple): (i: Option<Item>) {
    match t.aggrFunc
    case NoFunc => if t.field == "*" then None else Some(Plain(t.field))
    case Known(typ) => Some(Agg(typ))
    case Unknown(_) => None
  }

  /** What the expressions are to the planner, once all of them are supported. */
  function ItemsOf(tuples: seq<Tuple>): (items: seq<Item>)
    ensures |items| == |tuples|
  {
    seq(|tuples|, i requires 0 <= i < |tuples| =>
      var item := Classify(tuples[i]); if item.Some? then item.value else Plain(tuples[i].field))
  }

  predicate Supported(tuples: seq<Tuple>) {
    forall i | 0 <= i < |tuples| :: Classify(tuples[i]).Some?
  }

  // ---------------------------------------------------------------- the GROUP BY clause

  /** An expression of the GROUP BY clause; an empty table means that none was written. */
  datatype GroupExpr = ByColumn(table: string, field: string) | ByOther

  /** The GROUP BY column is meant to be the select expression: by its alias, or by its column. */
  predicate Matches(e: GroupExpr, t: Tuple) {
    && e.ByColumn?
    && ((e.table == "" && EqualFold(e.field, t.alias))
        || (t.isCol && EqualFold(e.field, t.field) && (e.table == "" || e.table == t.table)))
  }

  ghost predicate FirstMatch(e: GroupExpr, fields: seq<Tuple>, g: nat) {
    g < |fields| && Matches(e, fields[g]) && forall i | 0 <= i < g :: !Matches(e, fields[i])
  }

  /** The GROUP BY expression is no column, is of an unknown table, or is not selected. */
  ghost predicate NotSelected(e: GroupExpr, fields: seq<Tuple>, tables: set<string>) {
    e.ByOther? || (e.table != "" && e.table !in tables) || forall i | 0 <= i < |fields| :: !Matches(e, fields[i])
  }

  method FindMatch(e: GroupExpr, fields: seq<Tuple>) returns (g: nat)
    ensures g <= |fields| && (g < |fields| ==> FirstMatch(e, fields, g))
    ensures g == |fields| ==> forall i | 0 <= i < |fields| :: !Matches(e, fields[i])
  {
    g := 0;
    while g < |fields| && !Matches(e, fields[g])
      invariant g <= |fields| && forall i | 0 <= i < g :: !Matches(e, fields[i])
    {
      g := g + 1;
    }
  }

  /** The select expressions the GROUP BY clause means. */
  method CheckGroupBy(bys: seq<GroupExpr>, fields: seq<Tuple>, tables: set<string>) returns (r: Option<seq<nat>>)
    ensures r.None? <==> exists b | b in bys :: NotSelected(b, fields, tables)
    ensures r.Some? ==> |r.value| == |bys| && forall k | 0 <= k < |bys| :: FirstMatch(bys[k], fields, r.value[k])
  {
    var groups: seq<nat> := [];
    for k := 0 to |bys|
      invariant |groups| == k && forall j | 0 <= j < k :: FirstMatch(bys[j], fields, groups[j]) && !NotSelected(bys[j], fields, tables)
    {
      if bys[k].ByOther? || (bys[k].table != "" && bys[k].table !in tables) {
        assert NotSelected(bys[k], fields, tables);
        return None;
      }
      var g := FindMatch(bys[k], fields);
      if g == |fields| {
        assert NotSelected(bys[k], fields, tables);
        return None;
      }
      groups := groups + [g];
    }
    return Some(groups);
  }

  /** SELECT DISTINCT without GROUP BY groups by every expression. */
  function DistinctGroups(fields: seq<Tuple>): (groups: seq<nat>)
    ensures |groups| == |fields|
  {
    seq(|fields|, i requires 0 <= i < |fields| => i)
  }

  /** The expressions to group by when DISTINCT may ask for all of them; none when DISTINCT cannot be done:
      for `*`, and for an expression that is no column and has no alias. */
  method CheckDistinct(distinct: bool, bys: seq<GroupExpr>, groups: seq<nat>, fields: seq<Tuple>) returns (r: Option<seq<nat>>)
    ensures !distinct || bys != [] ==> r == Some(groups)
    ensures distinct && bys == [] && r.Some? ==> r.value == DistinctGroups(fields)
    ensures r.None? <==> distinct && bys == [] && exists t | t in fields :: t.field == "*" || (t.alias == "" && !t.isCol)
  {
    if !distinct || bys != [] {
      return Some(groups);
    }
    for i := 0 to |fields|
      invariant forall j | 0 <= j < i :: !(fields[j].field == "*" || (fields[j].alias == "" && !fields[j].isCol))
    {
      if fields[i].field == "*" || (fields[i].alias == "" && !fields[i].isCol) {
        assert fields[i] in fields;
        return None;
      }
    }
    return Some(DistinctGroups(fields));
  }

  // ---------------------------------------------------------------- the layout

  /** Columns an expression takes: an average that is pushed down takes two. */
  function Width(pd: bool, item: Item): (n: nat) {
    if pd && item == Agg(Avg) then 2 else 1
  }

  /** Columns of the rewritten list. */
  function Columns(pd: bool, items: seq<Item>): (n: nat) {
    if items == [] then 0 else Columns(pd, items[..|items| - 1]) + Width(pd, items[|items| - 1])
  }

  /** The first column of an expression. */
  function Off(pd: bool, items: seq<Item>, i: nat): (n: nat)
    requires i <= |items|
  {
    Columns(pd, items[..i])
  }

  function Expand(pd: bool, item: Item, i: nat): (es: seq<SelExpr>)
    ensures |es| == Width(pd, item)
  {
    if item.Plain? then [Orig(i)]
    else if !pd then [ArgOf(i)]
    else if item.typ == Avg then [SumOf(i), CountOf(i)]
    else [Orig(i)]
  }

  /** The rewritten select list: every average replaced by its sum and its count. */
  function Expanded(pd: bool, items: seq<Item>): (es: seq<SelExpr>)
    ensures |es| == Columns(pd, items)
  {
    if items == [] then []
    else Expanded(pd, items[..|items| - 1]) + Expand(pd, items[|items| - 1], |items| - 1)
  }

  function AggrsFor(pd: bool, item: Item, i: nat, k: nat): (list: seq<Aggregator>) {
    if item.Plain? then []
    else if pd && item.typ == Avg then [Aggregator(i, k, Avg), Aggregator(i, k, Sum), Aggregator(i, k + 1, Count)]
    else [Aggregator(i, k, item.typ)]
  }

  function AggrsOf(pd: bool, items: seq<Item>): (list: seq<Aggregator>) {
    if items == [] then []
    else
      var n := |items| - 1;
      AggrsOf(pd, items[..n]) + AggrsFor(pd, items[n], n, Columns(pd, items[..n]))
  }

  lemma {:induction false} OffBounds(pd: bool, items: seq<Item>, i: nat)
    requires i < |items|
    ensures Off(pd, items, i + 1) == Off(pd, items, i) + Width(pd, items[i]) && Off(pd, items, i + 1) <= Columns(pd, items)
    decreases |items|
  {
    assert items[..i + 1][..i] == items[..i];
    if i + 1 < |items| {
      var n := |items| - 1;
      OffBounds(pd, items[..n], i);
      assert items[..n][..i] == items[..i] && items[..n][..i + 1] == items[..i + 1];
    } else {
      assert items[..i + 1] == items;
    }
  }

  /** Each expression is in its place in the rewritten list. */
  lemma {:induction false} ExpandedAt(pd: bool, items: seq<Item>, i: nat, w: nat)
    requires i < |items| && w < Width(pd, items[i])
    ensures Off(pd, items, i) + w < |Expanded(pd, items)| && Expanded(pd, items)[Off(pd, items, i) + w] == Expand(pd, items[i], i)[w]
    decreases |items|
  {
    var n := |items| - 1;
    if i < n {
      assert items[..n][..i] == items[..i];
      ExpandedAt(pd, items[..n], i, w);
    }
  }

  /** An aggregate reads its own column: the rewritten list has there what the aggregate is of. */
  predicate ReadsOwn(pd: bool, items: seq<Item>, a: Aggregator) {
    && a.item < |items| && items[a.item].Agg? && a.index < |Expanded(pd, items)|
    && var e := Expanded(pd, items)[a.index];
       if !pd then e == ArgOf(a.item) && a.typ == items[a.item].typ
       else if items[a.item].typ != Avg then e == Orig(a.item) && a.typ == items[a.item].typ
       else (e == SumOf(a.item) && a.typ in {Avg, Sum}) || (e == CountOf(a.item) && a.typ == Count)
  }

  lemma {:induction false} AggrsReadOwn(pd: bool, items: seq<Item>, a: Aggregator)
    requires a in AggrsOf(pd, items)
    ensures ReadsOwn(pd, items, a)
    decreases |items|
  {
    var n := |items| - 1;
    var before := AggrsOf(pd, items[..n]);
    InEither(before, AggrsFor(pd, items[n], n, Columns(pd, items[..n])), a);
    if a in before {
      AggrsReadOwn(pd, items[..n], a);
    } else {
      ExpandedAt(pd, items, n, 0);
      if Width(pd, items[n]) == 2 {
        ExpandedAt(pd, items, n, 1);
      }
    }
  }

  // ---------------------------------------------------------------- the analysis

  /** An expression without aggregate function, and its column. */
  datatype NullCol = NullCol(field: string, col: nat)

  function NullsOf(pd: bool, items: seq<Item>): (ns: seq<NullCol>) {
    if items == [] then []
    else
      var n := |items| - 1;
      NullsOf(pd, items[..n]) + if items[n].Plain? then [NullCol(items[n].field, Columns(pd, items[..n]))] else []
  }

  datatype Plan = Plan(pd: bool, rewritten: seq<SelExpr>, normal: seq<Aggregator>, groups: seq<nat>)

  /** The expressions the tuples stand for. */
  predicate Classified(tuples: seq<Tuple>, items: seq<Item>) {
    |items| == |tuples| && FirstClassified(tuples, items)
  }

  predicate FirstClassified(tuples: seq<Tuple>, items: seq<Item>) {
    |items| <= |tuples| && forall i | 0 <= i < |items| :: Classify(tuples[i]) == Some(items[i])
  }

  /** The select list before rewriting. */
  function Originals(n: nat): (es: seq<SelExpr>)
    ensures |es| == n
  {
    seq(n, i requires 0 <= i < n => Orig(i))
  }

  /** Goes through the select expressions once, keeping the column of the next expression, and rewrites
      the list in place. */
  method Rewrite(tuples: seq<Tuple>, pd: bool) returns (r: Option<(seq<SelExpr>, seq<Aggregator>)>, nulls: seq<NullCol>, ghost items: seq<Item>)
    ensures r.None? <==> exists i | 0 <= i < |tuples| :: Classify(tuples[i]).None?
    ensures r.Some? ==> Classified(tuples, items) && r.value.0 == Expanded(pd, items) && r.value.1 == AggrsOf(pd, items)
    ensures r.Some? ==> nulls == NullsOf(pd, items)
  {
    var rewritten, normal := Originals(|tuples|), [];
    nulls, items := [], [];
    var k := 0;
    for i := 0 to |tuples|
      invariant |items| == i && FirstClassified(tuples, items)
      invariant Rewriting(pd, items, Originals(|tuples|), rewritten, normal, nulls, k)
    {
      var item := Classify(tuples[i]);
      if item.None? {
        return None, nulls, items;
      }
      RewriteStep(pd, items, item.value, Originals(|tuples|), rewritten, normal, nulls, k);
      if item.value.Plain? {
        nulls := nulls + [NullCol(item.value.field, k)];
        k := k + 1;
      } else {
        var aggrs;
        rewritten, aggrs, k := RewriteOne(rewritten, k, item.value, i, pd);
        normal := normal + aggrs;
      }
      items := items + [item.value];
    }
    RewriteEnd(pd, items, Originals(|tuples|), rewritten, normal, nulls, k);
    return Some((rewritten, normal)), nulls, items;
  }

  lemma RewriteEnd(pd: bool, items: seq<Item>, origs: seq<SelExpr>, rewritten: seq<SelExpr>, normal: seq<Aggregator>, nulls: seq<NullCol>, k: nat)
    requires Rewriting(pd, items, origs, rewritten, normal, nulls, k) && |items| == |origs|
    ensures rewritten == Expanded(pd, items) && normal == AggrsOf(pd, items) && nulls == NullsOf(pd, items)
  {
  }

  /** Some expressions done, the others still as they were. */
  ghost predicate Rewriting(pd: bool, items: seq<Item>, origs: seq<SelExpr>, rewritten: seq<SelExpr>, normal: seq<Aggregator>, nulls: seq<NullCol>, k: nat) {
    && |items| <= |origs| && k == Columns(pd, items) && rewritten == Expanded(pd, items) + origs[|items|..]
    && normal == AggrsOf(pd, items) && nulls == NullsOf(pd, items)
  }

  /** Rewrites the column of one aggregate; the columns behind an average move on by one. */
  method RewriteOne(rewritten: seq<SelExpr>, k: nat, item: Item, i: nat, pd: bool) returns (r: seq<SelExpr>, aggrs: seq<Aggregator>, next: nat)
    requires item.Agg? && k < |rewritten| && rewritten[k] == Orig(i)
    ensures r == rewritten[..k] + Expand(pd, item, i) + rewritten[k + 1..]
    ensures aggrs == AggrsFor(pd, item, i, k) && next == k + Width(pd, item)
  {
    r, aggrs, next := rewritten, [Aggregator(i, k, item.typ)], k;
    if pd {
      if item.typ == Avg {
        aggrs := aggrs + [Aggregator(i, k, Sum), Aggregator(i, k + 1, Count)];
        r := r[..k] + [SumOf(i), CountOf(i)] + r[k + 1..];
        next := next + 1;
      }
    } else {
      r := r[k := ArgOf(i)];
    }
    next := next + 1;
  }

  /** One more expression in the rewritten list, the aggregates and the plain columns. */
  lemma ItemsStep(pd: bool, items: seq<Item>, item: Item)
    ensures Expanded(pd, items + [item]) == Expanded(pd, items) + Expand(pd, item, |items|)
    ensures Columns(pd, items + [item]) == Columns(pd, items) + Width(pd, item)
    ensures AggrsOf(pd, items + [item]) == AggrsOf(pd, items) + AggrsFor(pd, item, |items|, Columns(pd, items))
    ensures NullsOf(pd, items + [item]) == NullsOf(pd, items) + if item.Plain? then [NullCol(item.field, Columns(pd, items))] else []
  {
    assert (items + [item])[..|items|] == items;
  }

  lemma RewriteStep(pd: bool, items: seq<Item>, item: Item, origs: seq<SelExpr>, rewritten: seq<SelExpr>, normal: seq<Aggregator>, nulls: seq<NullCol>, k: nat)
    requires Rewriting(pd, items, origs, rewritten, normal, nulls, k) && |items| < |origs| && origs[|items|] == Orig(|items|)
    ensures k < |rewritten| && rewritten[k] == Orig(|items|)
    ensures item.Plain? ==> Rewriting(pd, items + [item], origs, rewritten, normal, nulls + [NullCol(item.field, k)], k + 1)
    ensures item.Agg? ==> Rewriting(pd, items + [item], origs, rewritten[..k] + Expand(pd, item, |items|) + rewritten[k + 1..],
                                    normal + AggrsFor(pd, item, |items|, k), nulls, k + Width(pd, item))
  {
    ItemsStep(pd, items, item);
    NextInPlace(Expanded(pd, items), origs, |items|, rewritten, k, Expand(pd, item, |items|));
  }

  /** The next expression is at the next column, and what takes its place comes before the others. */
  lemma NextInPlace(done: seq<SelExpr>, origs: seq<SelExpr>, i: nat, rewritten: seq<SelExpr>, k: nat, es: seq<SelExpr>)
    requires i < |origs| && rewritten == done + origs[i..] && k == |done|
    ensures k < |rewritten| && rewritten[k] == origs[i] && rewritten == done + [origs[i]] + origs[i + 1..]
    ensures rewritten[..k] + es + rewritten[k + 1..] == done + es + origs[i + 1..]
  {
    assert rewritten[..k] == done && rewritten[k + 1..] == origs[i + 1..];
    assert origs[i..] == [origs[i]] + origs[i + 1..];
  }

  lemma ClassifiedItems(tuples: seq<Tuple>, items: seq<Item>)
    requires Classified(tuples, items)
    ensures Supported(tuples) && items == ItemsOf(tuples)
  {
    forall i | 0 <= i < |tuples| ensures Classify(tuples[i]) == Some(items[i]) {
    }
  }

  /** The first plain expression with the name. */
  ghost predicate FirstNamed(items: seq<Item>, name: string, i: nat) {
    && i < |items| && items[i].Plain? && EqualFold(items[i].field, name)
    && forall j: nat | j < i :: !(items[j].Plain? && EqualFold(items[j].field, name))
  }

  predicate Named(items: seq<Item>, name: string) {
    exists i: nat | i < |items| :: items[i].Plain? && EqualFold(items[i].field, name)
  }

  /** The first expression without aggregate function that has the name. */
  method FindGroup(nulls: seq<NullCol>, g: string) returns (r: Option<nat>)
    ensures r.Some? ==> r.value < |nulls| && EqualFold(nulls[r.value].field, g)
    ensures r.Some? ==> forall h | 0 <= h < r.value :: !EqualFold(nulls[h].field, g)
    ensures r.None? ==> forall h | 0 <= h < |nulls| :: !EqualFold(nulls[h].field, g)
  {
    for j := 0 to |nulls|
      invariant forall h | 0 <= h < j :: !EqualFold(nulls[h].field, g)
    {
      if EqualFold(nulls[j].field, g) {
        return Some(j);
      }
    }
    return None;
  }

  /** The name by which a GROUP BY expression is looked up. */
  function NameOf(tuples: seq<Tuple>, g: nat): (name: string) {
    if g < |tuples| then tuples[g].field else ""
  }

  /** The plan of a select: the rewritten list, the aggregates, and for each GROUP BY expression the column
      of the first plain expression of its name. */
  ghost predicate Planned(tuples: seq<Tuple>, groups: seq<nat>, pd: bool, plan: Plan)
  {
    && plan.pd == pd && plan.rewritten == Expanded(pd, ItemsOf(tuples)) && plan.normal == AggrsOf(pd, ItemsOf(tuples))
    && Grouping(tuples, groups, pd, plan.groups)
  }

  ghost predicate Grouping(tuples: seq<Tuple>, groups: seq<nat>, pd: bool, cols: seq<nat>)
  {
    |cols| == |groups| && forall k | 0 <= k < |groups| :: GroupColumn(pd, ItemsOf(tuples), NameOf(tuples, groups[k]), cols[k])
  }

  ghost predicate GroupColumn(pd: bool, items: seq<Item>, name: string, col: nat) {
    exists i :: FirstNamed(items, name, i) && col == Off(pd, items, i)
  }

  /** Plans the aggregates and the GROUP BY expressions of a select. */
  method Analyze(tuples: seq<Tuple>, groups: seq<nat>, pd: bool) returns (r: Option<Plan>)
    ensures r.Some? ==> Planned(tuples, groups, pd, r.value)
    ensures r.Some? <==> Supported(tuples) && forall g | g in groups :: Named(ItemsOf(tuples), NameOf(tuples, g))
  {
    var rewritten, nulls;
    ghost var items;
    rewritten, nulls, items := Rewrite(tuples, pd);
    if rewritten.None? {
      return None;
    }
    ClassifiedItems(tuples, items);
    var cols := GroupColumns(tuples, pd, nulls, groups);
    if cols.None? {
      return None;
    }
    return Some(Plan(pd, rewritten.value.0, rewritten.value.1, cols.value));
  }

  /** The columns of the GROUP BY expressions. */
  method GroupColumns(tuples: seq<Tuple>, pd: bool, nulls: seq<NullCol>, groups: seq<nat>) returns (r: Option<seq<nat>>)
    requires nulls == NullsOf(pd, ItemsOf(tuples))
    ensures r.Some? ==> Grouping(tuples, groups, pd, r.value)
    ensures r.Some? <==> forall g | g in groups :: Named(ItemsOf(tuples), NameOf(tuples, g))
  {
    var cols: seq<nat> := [];
    for k := 0 to |groups|
      invariant |cols| == k
      invariant forall j | 0 <= j < k :: GroupColumn(pd, ItemsOf(tuples), NameOf(tuples, groups[j]), cols[j])
      invariant forall j | 0 <= j < k :: Named(ItemsOf(tuples), NameOf(tuples, groups[j]))
    {
      var name := NameOf(tuples, groups[k]);
      var found := FindGroup(nulls, name);
      if found.None? {
        NoneNamed(pd, ItemsOf(tuples), name);
        return None;
      }
      FoundNamed(pd, ItemsOf(tuples), found.value, name);
      cols := cols + [nulls[found.value].col];
    }
    return Some(cols);
  }

  lemma {:induction false} NullAt(pd: bool, items: seq<Item>, j: nat) returns (i: nat)
    requires j < |NullsOf(pd, items)|
    ensures i < |items| && items[i].Plain? && NullsOf(pd, items)[j] == NullCol(items[i].field, Off(pd, items, i))
    ensures |NullsOf(pd, items[..i])| == j
    decreases |items|
  {
    var n := |items| - 1;
    if j < |NullsOf(pd, items[..n])| {
      i := NullAt(pd, items[..n], j);
      assert items[..n][..i] == items[..i];
    } else {
      i := n;
    }
  }

  lemma {:induction false} PlainIn(pd: bool, items: seq<Item>, i: nat)
    requires i < |items| && items[i].Plain?
    ensures NullCol(items[i].field, Off(pd, items, i)) in NullsOf(pd, items)
    decreases |items|
  {
    var n := |items| - 1;
    if i < n {
      PlainIn(pd, items[..n], i);
      assert items[..n][..i] == items[..i];
    }
  }

  lemma {:induction false} NullsPrefix(pd: bool, items: seq<Item>, m: nat)
    requires m <= |items|
    ensures NullsOf(pd, items[..m]) <= NullsOf(pd, items)
    decreases |items|
  {
    if m == |items| {
      assert items[..m] == items;
    } else {
      var n := |items| - 1;
      assert items[..n][..m] == items[..m];
      NullsPrefix(pd, items[..n], m);
    }
  }

  lemma FoundNamed(pd: bool, items: seq<Item>, j: nat, name: string)
    requires j < |NullsOf(pd, items)| && EqualFold(NullsOf(pd, items)[j].field, name)
    requires forall h | 0 <= h < j :: !EqualFold(NullsOf(pd, items)[h].field, name)
    ensures GroupColumn(pd, items, name, NullsOf(pd, items)[j].col) && Named(items, name)
  {
    var i := NullAt(pd, items, j);
    NullsPrefix(pd, items, i);
    forall k: nat | k < i ensures !(items[k].Plain? && EqualFold(items[k].field, name)) {
      if items[k].Plain? {
        PlainIn(pd, items[..i], k);
        var h :| 0 <= h < j && NullsOf(pd, items[..i])[h] == NullCol(items[k].field, Off(pd, items[..i], k));
        assert NullsOf(pd, items)[h].field == items[k].field;
      }
    }
    assert FirstNamed(items, name, i);
  }

  lemma NoneNamed(pd: bool, items: seq<Item>, name: string)
    requires forall h | 0 <= h < |NullsOf(pd, items)| :: !EqualFold(NullsOf(pd, items)[h].field, name)
    ensures !Named(items, name)
  {
    forall i: nat | i < |items| && items[i].Plain? ensures !EqualFold(items[i].field, name) {
      PlainIn(pd, items, i);
    }
  }

  lemma {:induction false} OffMonotone(pd: bool, items: seq<Item>, i: nat, j: nat)
    requires i < j <= |items|
    ensures Off(pd, items, i) + Width(pd, items[i]) <= Off(pd, items, j)
    decreases j
  {
    OffBounds(pd, items, j - 1);
    if i < j - 1 {
      OffMonotone(pd, items, i, j - 1);
    }
  }

  /** The index of a GROUP BY expression is its own column if and only if it is plain and no plain expression
      before it has its name. */
  lemma OwnColumn(tuples: seq<Tuple>, pd: bool, g: nat, col: nat)
    requires g < |tuples| && GroupColumn(pd, ItemsOf(tuples), NameOf(tuples, g), col)
    ensures col == Off(pd, ItemsOf(tuples), g) <==> FirstNamed(ItemsOf(tuples), NameOf(tuples, g), g)
  {
    var items := ItemsOf(tuples);
    var i: nat :| FirstNamed(items, NameOf(tuples, g), i) && col == Off(pd, items, i);
    if i < g {
      OffMonotone(pd, items, i, g);
    } else if g < i {
      OffMonotone(pd, items, g, i);
    }
  }
}
