/** The plan tree of a cross-shard join: the order of its nodes, the columns asked of them, and where
    conditions go. */
module PlanTree {
  import opened Text
  import opened Values
  import Predicates

  /** A column, qualified by its table. */
  type Column = Predicates.Column

  /** Something selected or asked for: a column, or an expression over columns. `func` marks a
      function call, which a left join cannot compute on its right side. */
  datatype Field = ColField(col: Column) | ExprField(args: seq<Column>, id: nat, func: bool)

  /** The text of a leaf's query: what it selects and the conditions it applies. */
  datatype Query = Query(fields: seq<Field>, wheres: seq<Field>)

  datatype Tree =
    | Merge(tables: set<string>, order: int, fields: seq<Field>, wheres: seq<Field>, query: Option<Query>)
    | Join(left: Tree, right: Tree, order: int, cols: seq<int>, fields: seq<Field>, vars: map<string, nat>,
           nest: bool, isLeftJoin: bool)

  function Columns(f: Field): (cs: seq<Column>) {
    if f.ColField? then [f.col] else f.args
  }

  function Tables(t: Tree): (s: set<string>) {
    match t
    case Merge(tables, _, _, _, _) => tables
    case Join(l, r, _, _, _, _, _, _) => Tables(l) + Tables(r)
  }

  /** All tables of the field are among the given ones. */
  predicate Within(f: Field, tables: set<string>) {
    forall c | c in Columns(f) :: c.qualifier in tables
  }

  /** The columns that the texts of the leaves mention. */
  function Uses(t: Tree): (cs: set<Column>) {
    match t
    case Merge(_, _, fields, wheres, _) => (set f, c | f in fields && c in Columns(f) :: c) + (set f, c | f in wheres && c in Columns(f) :: c)
    case Join(l, r, _, _, _, _, _, _) => Uses(l) + Uses(r)
  }

  function LeafOrders(t: Tree): (s: set<int>) {
    match t
    case Merge(_, order, _, _, _) => {order}
    case Join(l, r, _, _, _, _, _, _) => LeafOrders(l) + LeafOrders(r)
  }

  /** The joins and tables of a tree, without what planning adds. */
  function Shape(t: Tree): (s: Tree) {
    match t
    case Merge(tables, _, _, _, _) => Merge(tables, 0, [], [], None)
    case Join(l, r, _, _, _, _, _, isLeftJoin) => Join(Shape(l), Shape(r), 0, [], [], map[], false, isLeftJoin)
  }

  // ---------------------------------------------------------------- what every plan keeps

  /** No table is on both sides of a join. */
  predicate Unique(t: Tree) {
    t.Join? ==> Tables(t.left) !! Tables(t.right) && Unique(t.left) && Unique(t.right)
  }

  /** The orders go up from left to right and from children to parents, beginning above `lo`. */
  predicate Ordered(t: Tree, lo: int) {
    match t
    case Merge(_, order, _, _, _) => lo < order
    case Join(l, r, order, _, _, _, _, _) => Ordered(l, lo) && Ordered(r, l.order) && r.order < order
  }

  /** `ord` has the order of the leaf of each table. */
  predicate Knows(t: Tree, ord: map<string, int>) {
    match t
    case Merge(tables, order, _, _, _) => forall x | x in tables :: x in ord && ord[x] == order
    case Join(l, r, _, _, _, _, _, _) => Knows(l, ord) && Knows(r, ord)
  }

  /** A leaf's text has no column of a leaf to its right. */
  predicate Backward(t: Tree, ord: map<string, int>) {
    match t
    case Merge(_, order, _, _, _) => forall c | c in Uses(t) :: c.qualifier in ord && ord[c.qualifier] <= order
    case Join(l, r, _, _, _, _, _, _) => Backward(l, ord) && Backward(r, ord)
  }

  /** The i-th column of a join comes from the child that was asked for the i-th field. */
  predicate ColAligned(cols: seq<int>, fields: seq<Field>, left: Tree, right: Tree, i: nat)
    requires i < |cols| == |fields|
  {
    if cols[i] < 0 then
      -cols[i] <= |left.fields| && left.fields[-cols[i] - 1] == fields[i] && Within(fields[i], Tables(left))
    else
      0 < cols[i] <= |right.fields| && right.fields[cols[i] - 1] == fields[i] && !Within(fields[i], Tables(left))
  }

  predicate Aligned(t: Tree) {
    t.Join? ==>
      && |t.cols| == |t.fields|
      && (forall i: nat | i < |t.cols| :: ColAligned(t.cols, t.fields, t.left, t.right, i))
      && Aligned(t.left) && Aligned(t.right)
  }

  predicate AllNest(t: Tree) {
    t.Join? ==> t.nest && AllNest(t.left) && AllNest(t.right)
  }

  /** Below a nested-loop join there are only nested-loop joins. */
  predicate NestDown(t: Tree) {
    t.Join? ==> (t.nest ==> AllNest(t.left) && AllNest(t.right)) && NestDown(t.left) && NestDown(t.right)
  }

  /** A join whose right side mentions a column of its left side is a nested-loop join. */
  predicate CrossNest(t: Tree) {
    t.Join? ==>
      && (t.nest || forall c | c in Uses(t.right) :: c.qualifier !in Tables(t.left))
      && CrossNest(t.left) && CrossNest(t.right)
  }

  predicate Planned(t: Tree, lo: int, ord: map<string, int>) {
    Unique(t) && Ordered(t, lo) && Knows(t, ord) && Backward(t, ord) && Aligned(t) && NestDown(t) && CrossNest(t)
  }

  // ---------------------------------------------------------------- orders

  function ReOrder(t: Tree, order: int): (r: Tree) {
    match t
    case Merge(tables, _, fields, wheres, query) => Merge(tables, order + 1, fields, wheres, query)
    case Join(l, r, _, _, _, _, _, _) =>
      var l' := ReOrder(l, order);
      var r' := ReOrder(r, l'.order);
      t.(left := l', right := r', order := r'.order + 1)
  }

  /** The leaves from left to right. */
  function LeafList(t: Tree): (s: seq<int>) {
    match t
    case Merge(_, order, _, _, _) => [order]
    case Join(l, r, _, _, _, _, _, _) => LeafList(l) + LeafList(r)
  }

  predicate Increasing(s: seq<int>) {
    forall i, j | 0 <= i < j < |s| :: s[i] < s[j]
  }

  lemma {:induction false} OrderBounds(t: Tree, lo: int)
    requires Ordered(t, lo)
    ensures lo < t.order && forall o | o in LeafOrders(t) :: lo < o <= t.order
    ensures LeafOrders(t) != {}
  {
    if t.Join? {
      OrderBounds(t.left, lo);
      OrderBounds(t.right, t.left.order);
      assert LeafOrders(t.left) <= LeafOrders(t);
    }
  }

  lemma {:induction false} ListOrders(t: Tree, lo: int)
    requires Ordered(t, lo)
    ensures Increasing(LeafList(t)) && forall o :: o in LeafList(t) <==> o in LeafOrders(t)
  {
    if t.Join? {
      ListOrders(t.left, lo);
      ListOrders(t.right, t.left.order);
      OrderBounds(t.left, lo);
      OrderBounds(t.right, t.left.order);
      var a, b := LeafList(t.left), LeafList(t.right);
      forall i, j | 0 <= i < j < |a + b| ensures (a + b)[i] < (a + b)[j] {
        if i < |a| <= j {
          assert a[i] in LeafOrders(t.left) && b[j - |a|] in LeafOrders(t.right);
        }
      }
    }
  }

  /** Numbering gives every leaf an order above those to its left. */
  lemma {:induction false} ReOrderOrders(t: Tree, lo: int)
    ensures Ordered(ReOrder(t, lo), lo) && Tables(ReOrder(t, lo)) == Tables(t)
    ensures Increasing(LeafList(ReOrder(t, lo)))
  {
    if t.Join? {
      ReOrderOrders(t.left, lo);
      ReOrderOrders(t.right, ReOrder(t.left, lo).order);
    }
    ListOrders(ReOrder(t, lo), lo);
  }

  // ---------------------------------------------------------------- lowest common ancestors

  datatype Dir = L | R

  /** The way from the node down to the lowest node above the leaves `p1` and `p2`; leaves are told
      apart by their orders. */
  function FindLCA(t: Tree, p1: int, p2: int): (path: Option<seq<Dir>>) {
    match t
    case Merge(_, order, _, _, _) => if p1 == order || p2 == order then Some([]) else None
    case Join(l, r, _, _, _, _, _, _) =>
      var pl, pr := FindLCA(l, p1, p2), FindLCA(r, p1, p2);
      if pl.Some? && pr.Some? then Some([])
      else if pl.None? then (if pr.None? then None else Some([R] + pr.value))
      else Some([L] + pl.value)
  }

  function At(t: Tree, path: seq<Dir>): (r: Option<Tree>)
    decreases |path|
  {
    if path == [] then Some(t)
    else if t.Merge? then None
    else At(if path[0] == L then t.left else t.right, path[1..])
  }

  lemma {:induction false} FindNone(t: Tree, p1: int, p2: int)
    ensures FindLCA(t, p1, p2).None? <==> p1 !in LeafOrders(t) && p2 !in LeafOrders(t)
  {
    if t.Join? {
      FindNone(t.left, p1, p2);
      FindNone(t.right, p1, p2);
    }
  }

  /** For two leaves of the tree, the node found is a join with the lower leaf on its left and the
      higher one on its right. */
  lemma {:induction false} FindSplits(t: Tree, lo: int, p1: int, p2: int)
    requires Ordered(t, lo) && p1 in LeafOrders(t) && p2 in LeafOrders(t) && p1 < p2
    ensures FindLCA(t, p1, p2).Some?
    ensures var n := At(t, FindLCA(t, p1, p2).value);
      n.Some? && n.value.Join? && p1 in LeafOrders(n.value.left) && p2 in LeafOrders(n.value.right)
  {
    if t.Join? {
      OrderBounds(t.left, lo);
      OrderBounds(t.right, t.left.order);
      FindNone(t.left, p1, p2);
      FindNone(t.right, p1, p2);
      if p2 in LeafOrders(t.left) {
        FindSplits(t.left, lo, p1, p2);
        assert ([L] + FindLCA(t.left, p1, p2).value)[1..] == FindLCA(t.left, p1, p2).value;
      } else if p1 in LeafOrders(t.right) {
        FindSplits(t.right, t.left.order, p1, p2);
        assert ([R] + FindLCA(t.right, p1, p2).value)[1..] == FindLCA(t.right, p1, p2).value;
      }
    }
  }

  // ---------------------------------------------------------------- asking for a field

  function SetNest(t: Tree): (r: Tree) {
    if t.Merge? then t else t.(left := SetNest(t.left), right := SetNest(t.right), nest := true)
  }

  function PushedLeaf(t: Tree, f: Field): (r: Tree)
    requires t.Merge?
  {
    Merge(t.tables, t.order, t.fields + [f], t.wheres, t.query)
  }

  /** The join after a child was asked for the field. */
  function Asked(t: Tree, left: Tree, right: Tree, col: int, f: Field): (r: Tree)
    requires t.Join?
  {
    Join(left, right, t.order, t.cols + [col], t.fields + [f], t.vars, t.nest, t.isLeftJoin)
  }

  /** Adds a field to what a node returns, and gives the field's place; none when a left join would
      have to compute a function call on its right side. */
  function PushSelectExpr(t: Tree, f: Field): (r: Option<(Tree, nat)>) {
    if t.Merge? then Some((PushedLeaf(t, f), |t.fields|))
    else if Within(f, Tables(t.left)) then
      var p := PushSelectExpr(t.left, f);
      if p.None? then None
      else Some((Asked(t, p.value.0, t.right, -1 - p.value.1, f), |t.fields|))
    else if t.isLeftJoin && f.ExprField? && f.func then None
    else
      var p := PushSelectExpr(t.right, f);
      if p.None? then None
      else
        var t' := Asked(t, t.left, p.value.0, p.value.1 + 1, f);
        Some((if Within(f, Tables(t.right)) then t' else SetNest(t'), |t.fields|))
  }

  /** The same node with more to return. */
  predicate Grown(t: Tree, t': Tree) {
    t.Join? == t'.Join? && Tables(t) == Tables(t') && t.order == t'.order && LeafOrders(t) == LeafOrders(t') && t.fields <= t'.fields
  }

  lemma {:induction false} SetNestSame(t: Tree)
    ensures Grown(t, SetNest(t)) && SetNest(t).fields == t.fields && Uses(SetNest(t)) == Uses(t)
    ensures AllNest(SetNest(t))
  {
    if t.Join? {
      SetNestSame(t.left);
      SetNestSame(t.right);
    }
  }

  lemma {:induction false} SetNestShape(t: Tree)
    ensures Shape(SetNest(t)) == Shape(t)
  {
    if t.Join? {
      SetNestShape(t.left);
      SetNestShape(t.right);
    }
  }

  lemma {:induction false} PushShape(t: Tree, f: Field)
    requires PushSelectExpr(t, f).Some?
    ensures Shape(PushSelectExpr(t, f).value.0) == Shape(t)
  {
    if t.Join? {
      if Within(f, Tables(t.left)) {
        PushShape(t.left, f);
      } else {
        PushShape(t.right, f);
        var p := PushSelectExpr(t.right, f).value;
        SetNestShape(Asked(t, t.left, p.0, p.1 + 1, f));
      }
    }
  }

  lemma {:induction false} SetNestKeeps(t: Tree, lo: int, ord: map<string, int>)
    requires Unique(t) && Ordered(t, lo) && Knows(t, ord) && Backward(t, ord) && Aligned(t)
    ensures Planned(SetNest(t), lo, ord)
  {
    if t.Join? {
      SetNestKeeps(t.left, lo, ord);
      SetNestKeeps(t.right, t.left.order, ord);
      SetNestSame(t.left);
      SetNestSame(t.right);
      var t' := SetNest(t);
      forall i: nat | i < |t'.cols| ensures ColAligned(t'.cols, t'.fields, t'.left, t'.right, i) {
        assert ColAligned(t.cols, t.fields, t.left, t.right, i);
      }
    }
  }

  /** The field's columns are of tables of the node, or of leaves to its left. */
  predicate Reachable(f: Field, t: Tree, lo: int, ord: map<string, int>) {
    forall c | c in Columns(f) :: c.qualifier in ord && (c.qualifier in Tables(t) || ord[c.qualifier] <= lo)
  }

  lemma {:induction false} TableOrder(t: Tree, lo: int, ord: map<string, int>, x: string)
    requires Ordered(t, lo) && Knows(t, ord) && x in Tables(t)
    ensures x in ord && ord[x] in LeafOrders(t) && lo < ord[x] <= t.order
  {
    OrderBounds(t, lo);
    if t.Join? {
      OrderBounds(t.left, lo);
      if x in Tables(t.left) {
        TableOrder(t.left, lo, ord, x);
      } else {
        TableOrder(t.right, t.left.order, ord, x);
      }
    }
  }

  lemma {:induction false} PushGrows(t: Tree, f: Field)
    requires PushSelectExpr(t, f).Some?
    ensures var r := PushSelectExpr(t, f).value;
      Grown(t, r.0) && r.0.fields == t.fields + [f] && r.1 == |t.fields| && Uses(r.0) == Uses(t) + (set c | c in Columns(f) :: c)
  {
    if t.Join? {
      if Within(f, Tables(t.left)) {
        PushGrows(t.left, f);
      } else {
        PushGrows(t.right, f);
        var p := PushSelectExpr(t.right, f).value;
        SetNestSame(Asked(t, t.left, p.0, p.1 + 1, f));
      }
    }
  }

  /** A join stays aligned when a child is asked for one more field. */
  lemma AskedAligned(t: Tree, left: Tree, right: Tree, col: int, f: Field)
    requires t.Join? && Aligned(t) && Aligned(left) && Aligned(right) && Grown(t.left, left) && Grown(t.right, right)
    requires ColAligned([col], [f], left, right, 0)
    ensures Aligned(Asked(t, left, right, col, f))
  {
    var t' := Asked(t, left, right, col, f);
    forall i: nat | i < |t'.cols| ensures ColAligned(t'.cols, t'.fields, left, right, i) {
      if i < |t.cols| {
        assert ColAligned(t.cols, t.fields, t.left, t.right, i);
      }
    }
  }

  lemma {:induction false} PushAllNest(t: Tree, f: Field)
    requires AllNest(t) && PushSelectExpr(t, f).Some?
    ensures AllNest(PushSelectExpr(t, f).value.0)
  {
    if t.Join? {
      if Within(f, Tables(t.left)) {
        PushAllNest(t.left, f);
      } else {
        PushAllNest(t.right, f);
        var p := PushSelectExpr(t.right, f).value;
        SetNestSame(Asked(t, t.left, p.0, p.1 + 1, f));
      }
    }
  }

  lemma ReachableRight(f: Field, t: Tree, lo: int, ord: map<string, int>)
    requires t.Join? && Ordered(t, lo) && Knows(t, ord) && Reachable(f, t, lo, ord)
    ensures Reachable(f, t.right, t.left.order, ord)
  {
    OrderBounds(t.left, lo);
    forall c | c in Columns(f) && c.qualifier !in Tables(t.right) ensures ord[c.qualifier] <= t.left.order {
      if c.qualifier in Tables(t.left) {
        TableOrder(t.left, lo, ord, c.qualifier);
      }
    }
  }

  /** Everything but the strategies. */
  predicate Laid(t: Tree, lo: int, ord: map<string, int>) {
    Unique(t) && Ordered(t, lo) && Knows(t, ord) && Backward(t, ord) && Aligned(t)
  }

  lemma AskedLaid(t: Tree, left: Tree, right: Tree, col: int, f: Field, lo: int, ord: map<string, int>)
    requires t.Join? && Laid(t, lo, ord) && Laid(left, lo, ord) && Laid(right, t.left.order, ord)
    requires Grown(t.left, left) && Grown(t.right, right) && ColAligned([col], [f], left, right, 0)
    ensures Laid(Asked(t, left, right, col, f), lo, ord)
  {
    AskedAligned(t, left, right, col, f);
  }

  /** A child that was asked for a field grows by it and stays planned. */
  predicate Answers(t: Tree, t': Tree, idx: nat, f: Field, lo: int, ord: map<string, int>) {
    && Planned(t', lo, ord) && Grown(t, t') && t'.fields == t.fields + [f] && idx == |t.fields|
    && Uses(t') == Uses(t) + (set c | c in Columns(f) :: c)
    && (AllNest(t) ==> AllNest(t'))
  }

  lemma PushLeft(t: Tree, left: Tree, idx: nat, f: Field, lo: int, ord: map<string, int>)
    requires Planned(t, lo, ord) && t.Join? && Within(f, Tables(t.left)) && Answers(t.left, left, idx, f, lo, ord)
    ensures Planned(Asked(t, left, t.right, -1 - idx as int, f), lo, ord)
  {
    AskedLaid(t, left, t.right, -1 - idx as int, f, lo, ord);
  }

  lemma PushRight(t: Tree, right: Tree, idx: nat, f: Field, lo: int, ord: map<string, int>)
    requires Planned(t, lo, ord) && t.Join? && !Within(f, Tables(t.left)) && Answers(t.right, right, idx, f, t.left.order, ord)
    ensures Within(f, Tables(t.right)) ==> Planned(Asked(t, t.left, right, idx + 1, f), lo, ord)
    ensures Planned(SetNest(Asked(t, t.left, right, idx + 1, f)), lo, ord)
  {
    AskedLaid(t, t.left, right, idx + 1, f, lo, ord);
    SetNestKeeps(Asked(t, t.left, right, idx + 1, f), lo, ord);
  }

  lemma PushAnswers(t: Tree, f: Field, lo: int, ord: map<string, int>)
    requires PushSelectExpr(t, f).Some? && Planned(PushSelectExpr(t, f).value.0, lo, ord)
    ensures Answers(t, PushSelectExpr(t, f).value.0, PushSelectExpr(t, f).value.1, f, lo, ord)
  {
    PushGrows(t, f);
    if AllNest(t) {
      PushAllNest(t, f);
    }
  }

  /** Asking for a field keeps everything a plan keeps. */
  lemma {:induction false} PushKeeps(t: Tree, f: Field, lo: int, ord: map<string, int>)
    requires Planned(t, lo, ord) && Reachable(f, t, lo, ord) && PushSelectExpr(t, f).Some?
    ensures Planned(PushSelectExpr(t, f).value.0, lo, ord)
  {
    if t.Merge? {
      PushGrows(t, f);
    } else if Within(f, Tables(t.left)) {
      PushKeeps(t.left, f, lo, ord);
      PushAnswers(t.left, f, lo, ord);
      PushLeft(t, PushSelectExpr(t.left, f).value.0, PushSelectExpr(t.left, f).value.1, f, lo, ord);
    } else {
      ReachableRight(f, t, lo, ord);
      PushKeeps(t.right, f, t.left.order, ord);
      PushAnswers(t.right, f, t.left.order, ord);
      PushRight(t, PushSelectExpr(t.right, f).value.0, PushSelectExpr(t.right, f).value.1, f, lo, ord);
    }
  }

  // ---------------------------------------------------------------- placing a condition

  /** Adds a condition to the leaf with the given order. */
  function AddWhere(t: Tree, order: int, f: Field): (r: Tree) {
    match t
    case Merge(tables, o, fields, wheres, query) =>
      if o == order then Merge(tables, o, fields, wheres + [f], query) else t
    case Join(l, r, _, _, _, _, _, _) => t.(left := AddWhere(l, order, f), right := AddWhere(r, order, f))
  }

  /** The leaf a condition goes to: of the leaves of its tables, the one with the highest order. */
  method LastLeaf(tables: seq<string>, ord: map<string, int>) returns (m: int)
    requires tables != [] && forall x | x in tables :: x in ord
    ensures exists x | x in tables :: ord[x] == m
    ensures forall x | x in tables :: ord[x] <= m
  {
    m := ord[tables[0]];
    for i := 1 to |tables|
      invariant exists k | 0 <= k < i :: ord[tables[k]] == m
      invariant forall k | 0 <= k < i :: ord[tables[k]] <= m
    {
      if m < ord[tables[i]] {
        m := ord[tables[i]];
      }
    }
  }

  lemma {:induction false} WhereSame(t: Tree, order: int, f: Field)
    ensures Grown(t, AddWhere(t, order, f)) && AddWhere(t, order, f).fields == t.fields
    ensures Uses(AddWhere(t, order, f)) <= Uses(t) + (set c | c in Columns(f) :: c)
    ensures AllNest(t) ==> AllNest(AddWhere(t, order, f))
  {
    if t.Join? {
      WhereSame(t.left, order, f);
      WhereSame(t.right, order, f);
    }
  }

  /** A condition over columns of leaves up to the one it goes to keeps everything a plan keeps, below
      nested-loop joins. */
  lemma {:induction false} WhereKeeps(t: Tree, order: int, f: Field, lo: int, ord: map<string, int>)
    requires Planned(t, lo, ord) && AllNest(t) && forall c | c in Columns(f) :: c.qualifier in ord && ord[c.qualifier] <= order
    ensures Planned(AddWhere(t, order, f), lo, ord)
  {
    WhereSame(t, order, f);
    if t.Join? {
      WhereKeeps(t.left, order, f, lo, ord);
      WhereKeeps(t.right, order, f, t.left.order, ord);
      WhereSame(t.left, order, f);
      WhereSame(t.right, order, f);
      var t' := AddWhere(t, order, f);
      forall i: nat | i < |t'.cols| ensures ColAligned(t'.cols, t'.fields, t'.left, t'.right, i) {
        assert ColAligned(t.cols, t.fields, t.left, t.right, i);
      }
    }
  }

  // ---------------------------------------------------------------- whole plans

  /** A step of planning at a node: asking it for a field, sending a condition over its tables to one of
      its leaves, or making it a nested-loop join. */
  datatype Step = Ask(f: Field) | Filter(f: Field, order: int) | Nest

  function StepHere(t: Tree, s: Step): (r: Option<Tree>) {
    match s
    case Ask(f) =>
      var p := PushSelectExpr(t, f);
      if p.None? then None else Some(p.value.0)
    case Filter(f, order) => Some(AddWhere(t, order, f))
    case Nest => Some(SetNest(t))
  }

  lemma {:induction false} StepAtHere(t: Tree, path: seq<Dir>, s: Step)
    requires At(t, path).Some? && StepAt(t, path, s).Some?
    ensures StepHere(At(t, path).value, s).Some?
    ensures At(StepAt(t, path, s).value, path) == StepHere(At(t, path).value, s)
    decreases |path|
  {
    if path != [] {
      StepAtHere(if path[0] == L then t.left else t.right, path[1..], s);
    }
  }

  function StepAt(t: Tree, path: seq<Dir>, s: Step): (r: Option<Tree>)
    decreases |path|
  {
    if path == [] then StepHere(t, s)
    else if t.Merge? then None
    else if path[0] == L then
      var l := StepAt(t.left, path[1..], s);
      if l.None? then None else Some(t.(left := l.value))
    else
      var r := StepAt(t.right, path[1..], s);
      if r.None? then None else Some(t.(right := r.value))
  }

  /** What the planner asks of a node is about the node's own tables; conditions across leaves are
      placed below nested-loop joins, at the last of their leaves. */
  predicate StepFits(t: Tree, s: Step, ord: map<string, int>) {
    match s
    case Ask(f) => Within(f, Tables(t))
    case Filter(f, order) => Within(f, Tables(t)) && AllNest(t) && forall c | c in Columns(f) :: c.qualifier in ord && ord[c.qualifier] <= order
    case Nest => true
  }

  /** What a step leaves as it is, and what it adds. */
  predicate Stepped(t: Tree, t': Tree) {
    && Grown(t, t')
    && (AllNest(t) ==> AllNest(t'))
    && (forall c | c in Uses(t') :: c in Uses(t) || c.qualifier in Tables(t))
  }

  lemma StepHereKeeps(t: Tree, s: Step, lo: int, ord: map<string, int>)
    requires Planned(t, lo, ord) && StepFits(t, s, ord) && StepHere(t, s).Some?
    ensures Planned(StepHere(t, s).value, lo, ord) && Stepped(t, StepHere(t, s).value)
  {
    match s
    case Ask(f) =>
      forall c | c in Columns(f) ensures c.qualifier in ord {
        TableOrder(t, lo, ord, c.qualifier);
      }
      PushKeeps(t, f, lo, ord);
      PushGrows(t, f);
      if AllNest(t) {
        PushAllNest(t, f);
      }
    case Filter(f, order) =>
      WhereKeeps(t, order, f, lo, ord);
      WhereSame(t, order, f);
    case Nest =>
      SetNestKeeps(t, lo, ord);
      SetNestSame(t);
  }

  lemma ChildStepped(t: Tree, left: Tree, right: Tree, lo: int, ord: map<string, int>)
    requires Planned(t, lo, ord) && t.Join? && Planned(left, lo, ord) && Planned(right, t.left.order, ord)
    requires Stepped(t.left, left) && Stepped(t.right, right)
    ensures Planned(t.(left := left, right := right), lo, ord) && Stepped(t, t.(left := left, right := right))
  {
    var t' := t.(left := left, right := right);
    forall i: nat | i < |t'.cols| ensures ColAligned(t'.cols, t'.fields, left, right, i) {
      assert ColAligned(t.cols, t.fields, t.left, t.right, i);
    }
  }

  /** A step anywhere in the tree keeps everything a plan keeps. */
  lemma {:induction false} StepKeeps(t: Tree, path: seq<Dir>, s: Step, lo: int, ord: map<string, int>)
    requires Planned(t, lo, ord) && At(t, path).Some? && StepFits(At(t, path).value, s, ord) && StepAt(t, path, s).Some?
    ensures Planned(StepAt(t, path, s).value, lo, ord) && Stepped(t, StepAt(t, path, s).value)
    decreases |path|
  {
    if path == [] {
      StepHereKeeps(t, s, lo, ord);
    } else if path[0] == L {
      StepKeeps(t.left, path[1..], s, lo, ord);
      ChildStepped(t, StepAt(t.left, path[1..], s).value, t.right, lo, ord);
    } else {
      StepKeeps(t.right, path[1..], s, t.left.order, ord);
      ChildStepped(t, t.left, StepAt(t.right, path[1..], s).value, lo, ord);
    }
  }

  function Orders(t: Tree): (ord: map<string, int>) {
    match t
    case Merge(tables, order, _, _, _) => map x | x in tables :: order
    case Join(l, r, _, _, _, _, _, _) => Orders(l) + Orders(r)
  }

  /** The tree of a FROM clause: nothing asked for yet, and conditions of single leaves only. */
  predicate Blank(t: Tree) {
    match t
    case Merge(tables, _, fields, wheres, _) => fields == [] && forall f | f in wheres :: Within(f, tables)
    case Join(l, r, _, cols, fields, vars, nest, _) => cols == [] && fields == [] && vars == map[] && !nest && Blank(l) && Blank(r)
  }

  lemma {:induction false} OrdersKnow(t: Tree, ord: map<string, int>)
    requires Unique(t) && forall x | x in Tables(t) :: x in Orders(t) && x in ord && ord[x] == Orders(t)[x]
    ensures Knows(t, ord)
  {
    if t.Join? {
      OrdersTables(t.left);
      OrdersTables(t.right);
      OrdersKnow(t.left, ord);
      OrdersKnow(t.right, ord);
    }
  }

  lemma {:induction false} OrdersTables(t: Tree)
    ensures Orders(t).Keys == Tables(t)
  {
    if t.Join? {
      OrdersTables(t.left);
      OrdersTables(t.right);
    }
  }

  lemma {:induction false} BlankUses(t: Tree)
    requires Blank(t)
    ensures forall c | c in Uses(t) :: c.qualifier in Tables(t)
  {
    if t.Join? {
      BlankUses(t.left);
      BlankUses(t.right);
    }
  }

  lemma {:induction false} ReOrderBlank(t: Tree, lo: int)
    requires Blank(t) && Unique(t)
    ensures Blank(ReOrder(t, lo)) && Unique(ReOrder(t, lo))
  {
    if t.Join? {
      ReOrderBlank(t.left, lo);
      ReOrderBlank(t.right, ReOrder(t.left, lo).order);
      ReOrderOrders(t.left, lo);
      ReOrderOrders(t.right, ReOrder(t.left, lo).order);
    }
  }

  lemma {:induction false} BlankPlanned(t: Tree, lo: int, ord: map<string, int>)
    requires Blank(t) && Unique(t) && Ordered(t, lo) && Knows(t, ord)
    ensures Planned(t, lo, ord)
  {
    BlankUses(t);
    if t.Join? {
      BlankPlanned(t.left, lo, ord);
      BlankPlanned(t.right, t.left.order, ord);
      BlankUses(t.right);
    }
  }

  /** Planning begins with everything a plan keeps. */
  lemma NumberedPlanned(t: Tree)
    requires Blank(t) && Unique(t)
    ensures Planned(ReOrder(t, 0), 0, Orders(ReOrder(t, 0)))
  {
    var t' := ReOrder(t, 0);
    ReOrderOrders(t, 0);
    ReOrderBlank(t, 0);
    OrdersTables(t');
    OrdersKnow(t', Orders(t'));
    BlankPlanned(t', 0, Orders(t'));
  }
}
