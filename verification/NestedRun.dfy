/** Running a nested-loop plan: the environment that reaches each leaf, and the rows that come back. */
module NestedRun {
  import opened Text
  import opened Values
  import opened PlanTree
  import opened BindVars
  import Joins
  import Predicates
  import opened JoinExecution

  /** One row from every leaf; a left join may go on without its right side. */
  datatype Combo = One(val: Column -> Value) | Both(l: Combo, r: Combo) | LeftOnly(l: Combo)

  /** The combination has the shape of the tree, and column names are read without regard to case. */
  ghost predicate Fits(t: Tree, combo: Combo) {
    match combo
    case One(val) => t.Merge? && forall c, d | Predicates.SameColumn(c, d) :: val(c) == val(d)
    case Both(l, r) => t.Join? && Fits(t.left, l) && Fits(t.right, r)
    case LeftOnly(l) => t.Join? && t.isLeftJoin && Fits(t.left, l)
  }

  /** The value of a column of the tree in the combination; NULL on a missing side. */
  function ValueIn(t: Tree, combo: Combo, c: Column): (v: Value) {
    match combo
    case One(val) => val(c)
    case Both(l, r) =>
      if t.Merge? then Null
      else if c.qualifier in Tables(t.left) then ValueIn(t.left, l, c) else ValueIn(t.right, r, c)
    case LeftOnly(l) =>
      if t.Merge? then Null
      else if c.qualifier in Tables(t.left) then ValueIn(t.left, l, c) else Null
  }

  /** What expressions mean, given the values of their columns. */
  type Evaluator = (nat, seq<Value>) -> Value

  function Arguments(cs: seq<Column>, get: Column -> Value): (vs: seq<Value>)
    ensures |vs| == |cs|
  {
    seq(|cs|, i requires 0 <= i < |cs| => get(cs[i]))
  }

  function Compute(eval: Evaluator, f: Field, get: Column -> Value): (v: Value) {
    if f.ColField? then get(f.col) else eval(f.id, Arguments(f.args, get))
  }

  lemma ComputeSame(eval: Evaluator, f: Field, get: Column -> Value, get': Column -> Value)
    requires forall c | c in Columns(f) :: get(c) == get'(c)
    ensures Compute(eval, f, get) == Compute(eval, f, get')
  {
    if f.ExprField? {
      assert Arguments(f.args, get) == Arguments(f.args, get');
    }
  }

  // ---------------------------------------------------------------- what runs

  /** A leaf reads its own columns from its row and the others from the variables. */
  function LeafGet(t: Tree, nm: Naming, env: Vars, val: Column -> Value, c: Column): (v: Value)
    requires t.Merge?
  {
    if c.qualifier in t.tables then val(c) else if nm.name(c) in env then env[nm.name(c)] else Null
  }

  /** The variables the left and the right side of a join run with: only a nested-loop join hands
      variables on, and adds its own for the right side. */
  function LeftVars(t: Tree, env: Vars): (e: Vars)
    requires t.Join?
  {
    if t.nest then env else map[]
  }

  function RightVars(t: Tree, env: Vars, lrow: Row): (e: Vars)
    requires t.Join?
  {
    if t.nest then env + BindRow(t.vars, lrow) else map[]
  }

  /** The row the plan returns for a combination. */
  function RowOf(t: Tree, nm: Naming, eval: Evaluator, env: Vars, combo: Combo): (row: Row) {
    match combo
    case One(val) =>
      if t.Join? then []
      else seq(|t.fields|, i requires 0 <= i < |t.fields| => Compute(eval, t.fields[i], (c: Column) => LeafGet(t, nm, env, val, c)))
    case Both(l, r) =>
      if t.Merge? then []
      else
        var lrow := RowOf(t.left, nm, eval, LeftVars(t, env), l);
        Joins.JoinRows(lrow, Joins.ARow(RowOf(t.right, nm, eval, RightVars(t, env, lrow), r)), t.cols)
    case LeftOnly(l) =>
      if t.Merge? then []
      else Joins.JoinRows(RowOf(t.left, nm, eval, LeftVars(t, env), l), Joins.NoRow, t.cols)
  }

  // ---------------------------------------------------------------- what it should return

  /** The column values a right side sees: those of the left side and those from outside. */
  function Outside(t: Tree, outer: Column -> Value, l: Combo): (get: Column -> Value)
    requires t.Join?
  {
    (c: Column) => if c.qualifier in Tables(t.left) then ValueIn(t.left, l, c) else outer(c)
  }

  /** The value of a column: on a missing side it is NULL, outside the tree it is given. */
  function Get(t: Tree, outer: Column -> Value, combo: Combo): (get: Column -> Value) {
    (c: Column) => if c.qualifier in Tables(t) then ValueIn(t, combo, c) else outer(c)
  }

  /** The meaning of a field on the combination: the expression on the values of its columns. */
  function Meaning(t: Tree, eval: Evaluator, outer: Column -> Value, combo: Combo, f: Field): (v: Value) {
    Compute(eval, f, Get(t, outer, combo))
  }

  /** The field was asked of a side that is missing. */
  predicate Missing(t: Tree, combo: Combo, f: Field) {
    match combo
    case One(_) => false
    case Both(l, r) => t.Join? && if Within(f, Tables(t.left)) then Missing(t.left, l, f) else Missing(t.right, r, f)
    case LeftOnly(l) => t.Join? && (Within(f, Tables(t.left)) ==> Missing(t.left, l, f))
  }

  /** What a plan returns for a field: its value, or NULL when it was asked of a missing side. */
  function Returned(t: Tree, eval: Evaluator, outer: Column -> Value, combo: Combo, f: Field): (v: Value) {
    if Missing(t, combo, f) then Null else Meaning(t, eval, outer, combo, f)
  }

  lemma ReturnedLeft(t: Tree, eval: Evaluator, outer: Column -> Value, combo: Combo, f: Field)
    requires t.Join? && !combo.One? && Within(f, Tables(t.left))
    ensures Meaning(t, eval, outer, combo, f) == Meaning(t.left, eval, outer, combo.l, f)
    ensures Returned(t, eval, outer, combo, f) == Returned(t.left, eval, outer, combo.l, f)
  {
    forall c | c in Columns(f) ensures Get(t, outer, combo)(c) == Get(t.left, outer, combo.l)(c) {
      assert c.qualifier in Tables(t.left);
    }
    ComputeSame(eval, f, Get(t, outer, combo), Get(t.left, outer, combo.l));
  }

  lemma ReturnedRight(t: Tree, eval: Evaluator, outer: Column -> Value, combo: Combo, f: Field)
    requires t.Join? && Unique(t) && combo.Both? && !Within(f, Tables(t.left))
    ensures Meaning(t, eval, outer, combo, f) == Meaning(t.right, eval, Outside(t, outer, combo.l), combo.r, f)
    ensures Returned(t, eval, outer, combo, f) == Returned(t.right, eval, Outside(t, outer, combo.l), combo.r, f)
  {
    ComputeSame(eval, f, Get(t, outer, combo), Get(t.right, Outside(t, outer, combo.l), combo.r));
  }

  lemma {:induction false} ColumnReturned(t: Tree, eval: Evaluator, outer: Column -> Value, combo: Combo, d: Column, c: Column)
    requires Fits(t, combo) && Unique(t) && Predicates.SameColumn(d, c) && c.qualifier in Tables(t)
    ensures Returned(t, eval, outer, combo, ColField(d)) == ValueIn(t, combo, c)
  {
    if t.Join? {
      assert Columns(ColField(d)) == [d];
      assert Within(ColField(d), Tables(t.left)) <==> c.qualifier in Tables(t.left);
      if c.qualifier in Tables(t.left) {
        ColumnReturned(t.left, eval, outer, combo.l, d, c);
        ReturnedLeft(t, eval, outer, combo, ColField(d));
      } else if combo.Both? {
        ColumnReturned(t.right, eval, Outside(t, outer, combo.l), combo.r, d, c);
        ReturnedRight(t, eval, outer, combo, ColField(d));
      }
    }
  }

  // ---------------------------------------------------------------- the two agree

  /** The foreign columns of every leaf are bound inside the tree or among `outs`. */
  ghost predicate Needs(t: Tree, nm: Naming, outs: set<Column>) {
    forall o, c | o in LeafOrders(t) && Foreign(t, o, c) :: c in outs || c in Reach(t, nm, o)
  }

  /** The environment has the outside columns, with their values. */
  ghost predicate EnvHas(t: Tree, nm: Naming, env: Vars, outer: Column -> Value, outs: set<Column>) {
    && outs <= nm.used
    && forall c | c in outs :: c.qualifier !in Tables(t) && nm.name(c) in env && env[nm.name(c)] == outer(c)
  }

  ghost predicate Runnable(t: Tree, lo: int, ord: map<string, int>, nm: Naming, outs: set<Column>) {
    Planned(t, lo, ord) && VarsOk(t, nm) && Needs(t, nm, outs) && (t.Join? ==> t.nest || outs == {})
  }

  function RightOuts(t: Tree, nm: Naming, outs: set<Column>): (s: set<Column>)
    requires t.Join?
  {
    if t.nest then outs + Bound(t, nm) else {}
  }

  lemma RunnableLeft(t: Tree, lo: int, ord: map<string, int>, nm: Naming, outs: set<Column>)
    requires t.Join? && Runnable(t, lo, ord, nm, outs)
    ensures Runnable(t.left, lo, ord, nm, outs)
  {
    forall o, c | o in LeafOrders(t.left) && Foreign(t.left, o, c) ensures c in outs || c in Reach(t.left, nm, o) {
      assert o in LeafOrders(t) && Foreign(t, o, c);
    }
  }

  lemma RunnableRight(t: Tree, lo: int, ord: map<string, int>, nm: Naming, outs: set<Column>)
    requires t.Join? && Runnable(t, lo, ord, nm, outs)
    ensures Runnable(t.right, t.left.order, ord, nm, RightOuts(t, nm, outs))
  {
    OrderBounds(t.left, lo);
    OrderBounds(t.right, t.left.order);
    forall o, c | o in LeafOrders(t.right) && Foreign(t.right, o, c) ensures c in RightOuts(t, nm, outs) || c in Reach(t.right, nm, o) {
      assert o in LeafOrders(t) && o !in LeafOrders(t.left) && Foreign(t, o, c);
    }
  }

  /** The row of a node has at each field's place what the plan returns for it. */
  ghost predicate RowReturns(t: Tree, nm: Naming, eval: Evaluator, env: Vars, outer: Column -> Value, combo: Combo) {
    && |RowOf(t, nm, eval, env, combo)| == |t.fields|
    && forall i | 0 <= i < |t.fields| :: RowOf(t, nm, eval, env, combo)[i] == Returned(t, eval, outer, combo, t.fields[i])
  }

  /** The row of a node has the meaning of each field at the field's place. */
  ghost predicate RowMeans(t: Tree, nm: Naming, eval: Evaluator, env: Vars, outer: Column -> Value, combo: Combo) {
    && |RowOf(t, nm, eval, env, combo)| == |t.fields|
    && forall i | 0 <= i < |t.fields| :: RowOf(t, nm, eval, env, combo)[i] == Meaning(t, eval, outer, combo, t.fields[i])
  }

  lemma LeafReturns(t: Tree, nm: Naming, eval: Evaluator, env: Vars, outer: Column -> Value, outs: set<Column>, combo: Combo)
    requires t.Merge? && Fits(t, combo) && Needs(t, nm, outs) && EnvHas(t, nm, env, outer, outs)
    ensures RowReturns(t, nm, eval, env, outer, combo)
  {
    forall i | 0 <= i < |t.fields| ensures RowOf(t, nm, eval, env, combo)[i] == Returned(t, eval, outer, combo, t.fields[i]) {
      forall c | c in Columns(t.fields[i]) && c.qualifier !in t.tables ensures c in outs {
        assert t.order in LeafOrders(t) && Foreign(t, t.order, c);
      }
      ComputeSame(eval, t.fields[i], (c: Column) => LeafGet(t, nm, env, combo.val, c), Get(t, outer, combo));
    }
  }

  /** Bound variables have the values the left row's columns have. */
  lemma BoundRight(t: Tree, nm: Naming, eval: Evaluator, env: Vars, outer: Column -> Value, outs: set<Column>, l: Combo)
    requires t.Join? && t.nest && Unique(t) && VarsOk(t, nm) && Fits(t.left, l) && EnvHas(t, nm, env, outer, outs)
    requires RowReturns(t.left, nm, eval, env, outer, l)
    ensures EnvHas(t.right, nm, RightVars(t, env, RowOf(t.left, nm, eval, env, l)), Outside(t, outer, l), RightOuts(t, nm, outs))
  {
    var lrow := RowOf(t.left, nm, eval, env, l);
    var env' := RightVars(t, env, lrow);
    forall c | c in RightOuts(t, nm, outs)
      ensures c.qualifier !in Tables(t.right) && nm.name(c) in env' && env'[nm.name(c)] == Outside(t, outer, l)(c)
    {
      if nm.name(c) in t.vars {
        var idx := t.vars[nm.name(c)];
        assert Points(t.left, idx, c);
        ColumnReturned(t.left, eval, outer, l, t.left.fields[idx].col, c);
      }
    }
  }

  lemma JoinReturns(t: Tree, nm: Naming, eval: Evaluator, env: Vars, outer: Column -> Value, combo: Combo)
    requires t.Join? && Unique(t) && Aligned(t) && Fits(t, combo)
    requires RowReturns(t.left, nm, eval, LeftVars(t, env), outer, combo.l)
    requires combo.Both? ==>
               RowReturns(t.right, nm, eval, RightVars(t, env, RowOf(t.left, nm, eval, LeftVars(t, env), combo.l)), Outside(t, outer, combo.l), combo.r)
    ensures RowReturns(t, nm, eval, env, outer, combo)
  {
    var row := RowOf(t, nm, eval, env, combo);
    forall i | 0 <= i < |t.fields| ensures row[i] == Returned(t, eval, outer, combo, t.fields[i]) {
      assert ColAligned(t.cols, t.fields, t.left, t.right, i);
      if Within(t.fields[i], Tables(t.left)) {
        ReturnedLeft(t, eval, outer, combo, t.fields[i]);
      } else if combo.Both? {
        ReturnedRight(t, eval, outer, combo, t.fields[i]);
      }
    }
  }

  /** Running the plan: every row has, for each field asked of the node, the field's value on the
      combination of rows it was made from, or NULL where a left join had no right side to ask. */
  lemma {:induction false} RunReturns(t: Tree, lo: int, ord: map<string, int>, nm: Naming, eval: Evaluator, env: Vars, outer: Column -> Value,
                                    outs: set<Column>, combo: Combo)
    requires Runnable(t, lo, ord, nm, outs) && Fits(t, combo) && EnvHas(t, nm, env, outer, outs)
    ensures RowReturns(t, nm, eval, env, outer, combo)
    decreases t
  {
    if t.Merge? {
      LeafReturns(t, nm, eval, env, outer, outs, combo);
    } else {
      RunnableLeft(t, lo, ord, nm, outs);
      RunReturns(t.left, lo, ord, nm, eval, LeftVars(t, env), outer, outs, combo.l);
      if combo.Both? {
        RunnableRight(t, lo, ord, nm, outs);
        if t.nest {
          BoundRight(t, nm, eval, env, outer, outs, combo.l);
        }
        RunReturns(t.right, t.left.order, ord, nm, eval, RightVars(t, env, RowOf(t.left, nm, eval, LeftVars(t, env), combo.l)),
                 Outside(t, outer, combo.l), RightOuts(t, nm, outs), combo.r);
      }
      JoinReturns(t, nm, eval, env, outer, combo);
    }
  }

  // ---------------------------------------------------------------- fields past a left join

  /** Column names are read without regard to case. */
  ghost predicate Folds(get: Column -> Value) {
    forall c, d | Predicates.SameColumn(c, d) :: get(c) == get(d)
  }

  /** The field is NULL whenever the columns of the tables are. */
  ghost predicate Strict(eval: Evaluator, f: Field, tables: set<string>) {
    forall get: Column -> Value | Folds(get) && (forall c: Column | c.qualifier in tables :: get(c) == Null) :: Compute(eval, f, get) == Null
  }

  /** Wherever the field is sent past a left join, it is NULL when the right side's columns are. */
  ghost predicate Safe(t: Tree, eval: Evaluator, f: Field) {
    t.Join? ==>
      if Within(f, Tables(t.left)) then Safe(t.left, eval, f)
      else (t.isLeftJoin ==> Strict(eval, f, Tables(t.right))) && Safe(t.right, eval, f)
  }

  /** Whether a field is safe can be seen before the queries are built. */
  lemma {:induction false} SafeShape(t: Tree, t': Tree, eval: Evaluator, f: Field)
    requires Shape(t) == Shape(t')
    ensures Tables(t) == Tables(t') && (Safe(t, eval, f) <==> Safe(t', eval, f))
  {
    if t.Join? {
      SafeShape(t.left, t'.left, eval, f);
      SafeShape(t.right, t'.right, eval, f);
    }
  }

  lemma {:induction false} ValueFolds(t: Tree, combo: Combo, c: Column, d: Column)
    requires Fits(t, combo) && Predicates.SameColumn(c, d)
    ensures ValueIn(t, combo, c) == ValueIn(t, combo, d)
  {
    if t.Join? {
      ValueFolds(t.left, combo.l, c, d);
      if combo.Both? {
        ValueFolds(t.right, combo.r, c, d);
      }
    }
  }

  lemma GetFolds(t: Tree, outer: Column -> Value, combo: Combo)
    requires Fits(t, combo) && Folds(outer)
    ensures Folds(Get(t, outer, combo))
  {
    forall c, d | Predicates.SameColumn(c, d) ensures Get(t, outer, combo)(c) == Get(t, outer, combo)(d) {
      ValueFolds(t, combo, c, d);
    }
  }

  lemma OutsideFolds(t: Tree, outer: Column -> Value, l: Combo)
    requires t.Join? && Fits(t.left, l) && Folds(outer)
    ensures Folds(Outside(t, outer, l))
  {
    forall c, d | Predicates.SameColumn(c, d) ensures Outside(t, outer, l)(c) == Outside(t, outer, l)(d) {
      ValueFolds(t.left, l, c, d);
    }
  }

  /** A safe field has its value on every combination. */
  lemma {:induction false} SafeMeans(t: Tree, eval: Evaluator, outer: Column -> Value, combo: Combo, f: Field)
    requires Unique(t) && Fits(t, combo) && Folds(outer) && Safe(t, eval, f)
    ensures Returned(t, eval, outer, combo, f) == Meaning(t, eval, outer, combo, f)
    decreases t
  {
    if t.Join? {
      if Within(f, Tables(t.left)) {
        SafeMeans(t.left, eval, outer, combo.l, f);
        ReturnedLeft(t, eval, outer, combo, f);
      } else if combo.Both? {
        OutsideFolds(t, outer, combo.l);
        SafeMeans(t.right, eval, Outside(t, outer, combo.l), combo.r, f);
        ReturnedRight(t, eval, outer, combo, f);
      } else {
        GetFolds(t, outer, combo);
        assert forall c: Column | c.qualifier in Tables(t.right) :: Get(t, outer, combo)(c) == Null;
      }
    }
  }

  /** Every leaf has the values of one assignment. */
  function All(t: Tree, get: Column -> Value): (combo: Combo) {
    if t.Merge? then One(get) else Both(All(t.left, get), All(t.right, get))
  }

  lemma {:induction false} AllFits(t: Tree, get: Column -> Value, c: Column)
    requires Folds(get)
    ensures Fits(t, All(t, get)) && (c.qualifier in Tables(t) ==> ValueIn(t, All(t, get), c) == get(c))
  {
    if t.Join? {
      AllFits(t.left, get, c);
      AllFits(t.right, get, c);
    }
  }

  /** A field that is not safe has a combination on which it comes back NULL and is not. */
  lemma {:induction false} UnsafeFails(t: Tree, eval: Evaluator, f: Field) returns (combo: Combo, outer: Column -> Value)
    requires Unique(t) && !Safe(t, eval, f)
    ensures Fits(t, combo) && Folds(outer) && Missing(t, combo, f) && Meaning(t, eval, outer, combo, f) != Null
    decreases t
  {
    if Within(f, Tables(t.left)) {
      var l;
      l, outer := UnsafeFails(t.left, eval, f);
      AllFits(t.right, outer, Predicates.Column("", ""));
      combo := Both(l, All(t.right, outer));
      ReturnedLeft(t, eval, outer, combo, f);
    } else if t.isLeftJoin && !Strict(eval, f, Tables(t.right)) {
      outer :| Folds(outer) && (forall c: Column | c.qualifier in Tables(t.right) :: outer(c) == Null) && Compute(eval, f, outer) != Null;
      AllFits(t.left, outer, Predicates.Column("", ""));
      combo := LeftOnly(All(t.left, outer));
      forall c | c in Columns(f) ensures Get(t, outer, combo)(c) == outer(c) {
        AllFits(t.left, outer, c);
      }
      ComputeSame(eval, f, Get(t, outer, combo), outer);
    } else {
      var r;
      r, outer := UnsafeFails(t.right, eval, f);
      AllFits(t.left, outer, Predicates.Column("", ""));
      combo := Both(All(t.left, outer), r);
      ReturnedRight(t, eval, outer, combo, f);
      forall c | c in Columns(f) ensures Get(t.right, Outside(t, outer, combo.l), r)(c) == Get(t.right, outer, r)(c) {
        AllFits(t.left, outer, c);
      }
      ComputeSame(eval, f, Get(t.right, Outside(t, outer, combo.l), r), Get(t.right, outer, r));
    }
  }

  /** A field comes back with its value on all combinations if and only if it is safe. */
  lemma FieldExact(t: Tree, eval: Evaluator, f: Field)
    requires Unique(t)
    ensures (forall combo, outer: Column -> Value | Fits(t, combo) && Folds(outer) :: Returned(t, eval, outer, combo, f) == Meaning(t, eval, outer, combo, f))
       <==> Safe(t, eval, f)
  {
    if Safe(t, eval, f) {
      forall combo, outer: Column -> Value | Fits(t, combo) && Folds(outer)
        ensures Returned(t, eval, outer, combo, f) == Meaning(t, eval, outer, combo, f)
      {
        SafeMeans(t, eval, outer, combo, f);
      }
    } else {
      var combo, outer := UnsafeFails(t, eval, f);
      assert Returned(t, eval, outer, combo, f) != Meaning(t, eval, outer, combo, f);
    }
  }

  /** Columns are always safe. */
  lemma {:induction false} ColumnSafe(t: Tree, eval: Evaluator, c: Column)
    requires c.qualifier in Tables(t)
    ensures Safe(t, eval, ColField(c))
  {
    if t.Join? {
      assert Columns(ColField(c)) == [c];
      if c.qualifier in Tables(t.left) {
        ColumnSafe(t.left, eval, c);
      } else {
        ColumnSafe(t.right, eval, c);
      }
    }
  }

  /** The rows have the values of the fields if and only if each field that was asked of a missing side is NULL
      there; so they have for safe fields. */
  lemma RunMeans(t: Tree, lo: int, ord: map<string, int>, nm: Naming, eval: Evaluator, env: Vars, outer: Column -> Value,
                 outs: set<Column>, combo: Combo)
    requires Runnable(t, lo, ord, nm, outs) && Fits(t, combo) && EnvHas(t, nm, env, outer, outs)
    ensures RowMeans(t, nm, eval, env, outer, combo) <==>
              forall i | 0 <= i < |t.fields| && Missing(t, combo, t.fields[i]) :: Meaning(t, eval, outer, combo, t.fields[i]) == Null
    ensures Folds(outer) && (forall f | f in t.fields :: Safe(t, eval, f)) ==> RowMeans(t, nm, eval, env, outer, combo)
  {
    RunReturns(t, lo, ord, nm, eval, env, outer, outs, combo);
    if Folds(outer) && forall f | f in t.fields :: Safe(t, eval, f) {
      forall i | 0 <= i < |t.fields| ensures Returned(t, eval, outer, combo, t.fields[i]) == Meaning(t, eval, outer, combo, t.fields[i]) {
        SafeMeans(t, eval, outer, combo, t.fields[i]);
      }
    }
  }

  /** One more than the value, and 1 for NULL: `ifnull(c.y, 0) + 1`. */
  function IfNullPlusOne(id: nat, vs: seq<Value>): (v: Value) {
    if vs == [] || vs[0].Null? then Val(1.0, true, "1") else Val(vs[0].rank + 1.0, true, "")
  }

  /** `b LEFT JOIN c` asked for an expression over `c` that is not a function call: it is accepted, and in the row of a left
      row without partner it is NULL where its value is 1. */
  lemma ExpressionLost(nm: Naming, outer: Column -> Value) returns (t: Tree, f: Field, combo: Combo)
    ensures t.Join? && t.isLeftJoin && Unique(t) && f.ExprField? && !f.func && PushSelectExpr(t, f).Some?
    ensures var t' := PushSelectExpr(t, f).value.0;
      && Fits(t', combo) && t'.fields == [f]
      && RowOf(t', nm, IfNullPlusOne, map[], combo) == [Null]
      && Meaning(t', IfNullPlusOne, outer, combo, f) == Val(1.0, true, "1")
  {
    var y := Predicates.Column("c", "y");
    t := Join(Merge({"b"}, 1, [], [], None), Merge({"c"}, 2, [], [], None), 3, [], [], map[], false, true);
    f := ExprField([y], 0, false);
    combo := LeftOnly(One(_ => Null));
    assert "b"[0] != "c"[0] && y in Columns(f) && Tables(t.left) == {"b"} && Tables(t.right) == {"c"};
    assert !Within(f, Tables(t.left)) && Within(f, Tables(t.right));
    assert PushSelectExpr(t.right, f) == Some((PushedLeaf(t.right, f), 0));
    var t' := Asked(t, t.left, PushedLeaf(t.right, f), 1, f);
    assert PushSelectExpr(t, f) == Some((t', 0)) && t'.cols == [1];
    assert Tables(t') == {"b"} + {"c"} && y.qualifier in Tables(t');
    assert Tables(t'.left) == {"b"} && y.qualifier !in Tables(t'.left) && ValueIn(t', combo, y) == Null;
    assert Get(t', outer, combo)(y) == Null;
    assert Arguments([y], Get(t', outer, combo)) == [Null];
  }

  // ---------------------------------------------------------------- the environment of a leaf

  /** The leaf runs for the combination. */
  predicate Runs(t: Tree, combo: Combo, o: int) {
    match combo
    case One(_) => t.Merge? && t.order == o
    case Both(l, r) => t.Join? && if o in LeafOrders(t.left) then Runs(t.left, l, o) else Runs(t.right, r, o)
    case LeftOnly(l) => t.Join? && o in LeafOrders(t.left) && Runs(t.left, l, o)
  }

  /** The variables that reach the leaf. */
  function EnvAt(t: Tree, nm: Naming, eval: Evaluator, env: Vars, combo: Combo, o: int): (e: Vars)
    requires Runs(t, combo, o)
  {
    if t.Merge? then env
    else if o in LeafOrders(t.left) then EnvAt(t.left, nm, eval, LeftVars(t, env), combo.l, o)
    else EnvAt(t.right, nm, eval, RightVars(t, env, RowOf(t.left, nm, eval, LeftVars(t, env), combo.l)), combo.r, o)
  }

  /** Every variable a leaf's query uses is bound, to the value its column has in the current rows. */
  lemma {:induction false} LeafBound(t: Tree, lo: int, ord: map<string, int>, nm: Naming, eval: Evaluator, env: Vars, outer: Column -> Value,
                                     outs: set<Column>, combo: Combo, o: int, c: Column)
    requires Runnable(t, lo, ord, nm, outs) && Fits(t, combo) && EnvHas(t, nm, env, outer, outs)
    requires Runs(t, combo, o) && o in LeafOrders(t) && Foreign(t, o, c)
    ensures nm.name(c) in EnvAt(t, nm, eval, env, combo, o)
    ensures EnvAt(t, nm, eval, env, combo, o)[nm.name(c)] == if c.qualifier in Tables(t) then ValueIn(t, combo, c) else outer(c)
    decreases t
  {
    if t.Join? {
      RunnableLeft(t, lo, ord, nm, outs);
      if o in LeafOrders(t.left) {
        LeafBound(t.left, lo, ord, nm, eval, LeftVars(t, env), outer, outs, combo.l, o, c);
        ForeignSide(t, lo, ord, nm, outs, o, c);
      } else {
        RunnableRight(t, lo, ord, nm, outs);
        RunReturns(t.left, lo, ord, nm, eval, LeftVars(t, env), outer, outs, combo.l);
        if t.nest {
          BoundRight(t, nm, eval, env, outer, outs, combo.l);
        }
        LeafBound(t.right, t.left.order, ord, nm, eval, RightVars(t, env, RowOf(t.left, nm, eval, LeftVars(t, env), combo.l)),
                  Outside(t, outer, combo.l), RightOuts(t, nm, outs), combo.r, o, c);
      }
    }
  }

  /** A leaf of the left side mentions no column of the right side. */
  lemma ForeignSide(t: Tree, lo: int, ord: map<string, int>, nm: Naming, outs: set<Column>, o: int, c: Column)
    requires t.Join? && Runnable(t, lo, ord, nm, outs) && o in LeafOrders(t.left) && Foreign(t.left, o, c)
    ensures c.qualifier !in Tables(t.right)
  {
    LeafColumn(t.left, lo, ord, o);
    OrderBounds(t.left, lo);
    if c.qualifier in Tables(t.right) {
      TableOrder(t.right, t.left.order, ord, c.qualifier);
    }
  }

  // ---------------------------------------------------------------- the field query

  /** Fetching the field info: both sides of a join run with the variables the join was given. */
  ghost predicate FieldsBound(t: Tree, nm: Naming, env: set<string>) {
    match t
    case Merge(tables, _, _, _, _) => forall c | c in Uses(t) && c.qualifier !in tables :: nm.name(c) in env
    case Join(l, r, _, _, _, _, _, _) => FieldsBound(l, nm, env) && FieldsBound(r, nm, env)
  }

  ghost function NamesOf(nm: Naming, cs: set<Column>): (s: set<string>) {
    set c | c in cs :: nm.name(c)
  }

  /** Every foreign column of every leaf has its variable. */
  ghost predicate LeavesBound(t: Tree, nm: Naming, env: set<string>) {
    forall o, c | o in LeafOrders(t) && Foreign(t, o, c) :: nm.name(c) in env
  }

  lemma LeavesBoundSplit(t: Tree, lo: int, nm: Naming, env: set<string>)
    requires t.Join? && Ordered(t, lo)
    ensures LeavesBound(t, nm, env) <==> LeavesBound(t.left, nm, env) && LeavesBound(t.right, nm, env)
  {
    OrderBounds(t.left, lo);
    OrderBounds(t.right, t.left.order);
    if LeavesBound(t, nm, env) {
      forall o, c | o in LeafOrders(t.left) && Foreign(t.left, o, c) ensures nm.name(c) in env {
        assert o in LeafOrders(t) && Foreign(t, o, c);
      }
      forall o, c | o in LeafOrders(t.right) && Foreign(t.right, o, c) ensures nm.name(c) in env {
        assert o in LeafOrders(t) && Foreign(t, o, c);
      }
    }
    if LeavesBound(t.left, nm, env) && LeavesBound(t.right, nm, env) {
      forall o, c | o in LeafOrders(t) && Foreign(t, o, c) ensures nm.name(c) in env {
        assert if o in LeafOrders(t.left) then Foreign(t.left, o, c) else Foreign(t.right, o, c);
      }
    }
  }

  lemma {:induction false} FieldsBoundLeaves(t: Tree, lo: int, nm: Naming, env: set<string>)
    requires Ordered(t, lo)
    ensures FieldsBound(t, nm, env) <==> LeavesBound(t, nm, env)
  {
    if t.Join? {
      FieldsBoundLeaves(t.left, lo, nm, env);
      FieldsBoundLeaves(t.right, t.left.order, nm, env);
      LeavesBoundSplit(t, lo, nm, env);
    } else if LeavesBound(t, nm, env) {
      forall c | c in Uses(t) && c.qualifier !in t.tables ensures nm.name(c) in env {
        assert t.order in LeafOrders(t) && Foreign(t, t.order, c);
      }
    }
  }

  lemma {:induction false} ReachInside(t: Tree, nm: Naming, o: int, c: Column)
    requires VarsOk(t, nm) && c in Reach(t, nm, o)
    ensures c.qualifier in Tables(t) && c in nm.used
  {
    if t.Join? {
      if o in LeafOrders(t.left) {
        ReachInside(t.left, nm, o, c);
      } else if c in Reach(t.right, nm, o) {
        ReachInside(t.right, nm, o, c);
      } else {
        assert Points(t.left, t.vars[nm.name(c)], c);
      }
    }
  }

  /** No leaf of the tree mentions a column of another leaf of the tree. */
  ghost predicate SelfContained(t: Tree) {
    forall o, c | o in LeafOrders(t) && Foreign(t, o, c) :: c.qualifier !in Tables(t)
  }

  /** The field query of a side finds its variables exactly when the side needs none of its own: a join
      does not add the variables it binds. */
  lemma FieldQueryExact(t: Tree, lo: int, ord: map<string, int>, nm: Naming, outs: set<Column>)
    requires Runnable(t, lo, ord, nm, outs) && nm.Apart() && Uses(t) <= nm.used && outs <= nm.used
    requires forall c | c in outs :: c.qualifier !in Tables(t)
    ensures FieldsBound(t, nm, NamesOf(nm, outs)) <==> SelfContained(t)
  {
    FieldsBoundLeaves(t, lo, nm, NamesOf(nm, outs));
    forall o, c | o in LeafOrders(t) && Foreign(t, o, c) ensures nm.name(c) in NamesOf(nm, outs) <==> c.qualifier !in Tables(t) {
      LeafUses(t, o);
      if nm.name(c) in NamesOf(nm, outs) {
        var d :| d in outs && nm.name(d) == nm.name(c);
        assert d == c;
      }
      if c.qualifier !in Tables(t) && c !in outs {
        ReachInside(t, nm, o, c);
      }
    }
  }

  // ---------------------------------------------------------------- from the FROM clause to the rows

  /** No variables yet. */
  predicate NoVars(t: Tree) {
    t.Join? ==> t.vars == map[] && NoVars(t.left) && NoVars(t.right)
  }

  lemma {:induction false} NoVarsOk(t: Tree, nm: Naming)
    requires NoVars(t)
    ensures VarsOk(t, nm)
  {
    if t.Join? {
      NoVarsOk(t.left, nm);
      NoVarsOk(t.right, nm);
    }
  }

  lemma {:induction false} NestNoVars(t: Tree)
    requires NoVars(t)
    ensures NoVars(SetNest(t))
  {
    if t.Join? {
      NestNoVars(t.left);
      NestNoVars(t.right);
    }
  }

  lemma {:induction false} PushNoVars(t: Tree, f: Field)
    requires NoVars(t) && PushSelectExpr(t, f).Some?
    ensures NoVars(PushSelectExpr(t, f).value.0)
  {
    if t.Join? {
      if Within(f, Tables(t.left)) {
        PushNoVars(t.left, f);
      } else {
        PushNoVars(t.right, f);
        NestNoVars(Asked(t, t.left, PushSelectExpr(t.right, f).value.0, PushSelectExpr(t.right, f).value.1 + 1, f));
      }
    }
  }

  lemma {:induction false} WhereNoVars(t: Tree, order: int, f: Field)
    requires NoVars(t)
    ensures NoVars(AddWhere(t, order, f))
  {
    if t.Join? {
      WhereNoVars(t.left, order, f);
      WhereNoVars(t.right, order, f);
    }
  }

  lemma {:induction false} StepNoVars(t: Tree, path: seq<Dir>, s: Step)
    requires NoVars(t) && StepAt(t, path, s).Some?
    ensures NoVars(StepAt(t, path, s).value)
    decreases |path|
  {
    if path == [] {
      match s
      case Ask(f) => PushNoVars(t, f);
      case Filter(f, order) => WhereNoVars(t, order, f);
      case Nest => NestNoVars(t);
    } else if path[0] == L {
      StepNoVars(t.left, path[1..], s);
    } else {
      StepNoVars(t.right, path[1..], s);
    }
  }

  lemma {:induction false} BlankNoVars(t: Tree, lo: int)
    requires Blank(t)
    ensures NoVars(ReOrder(t, lo))
  {
    if t.Join? {
      BlankNoVars(t.left, lo);
      BlankNoVars(t.right, ReOrder(t.left, lo).order);
    }
  }

  lemma BuiltRuns(t: Tree, ord: map<string, int>, nm: Naming)
    requires Building(t, ord, nm, 0) && forall o | o in LeafOrders(t) :: LeafDone(t, nm, o)
    ensures forall eval, outer, combo | Fits(t, combo) :: RowReturns(t, nm, eval, map[], outer, combo)
    ensures forall eval, outer, combo | Fits(t, combo) && Folds(outer) && (forall f | f in t.fields :: Safe(t, eval, f)) ::
              RowMeans(t, nm, eval, map[], outer, combo)
    ensures forall eval, combo, o, c | Fits(t, combo) && Runs(t, combo, o) && o in LeafOrders(t) && Foreign(t, o, c) ::
              nm.name(c) in EnvAt(t, nm, eval, map[], combo, o) && EnvAt(t, nm, eval, map[], combo, o)[nm.name(c)] == ValueIn(t, combo, c)
  {
    assert Needs(t, nm, {}) by {
      forall o, c | o in LeafOrders(t) && Foreign(t, o, c) ensures c in Reach(t, nm, o) {
        assert LeafDone(t, nm, o);
      }
    }
    forall eval: Evaluator, outer: Column -> Value, combo | Fits(t, combo)
      ensures RowReturns(t, nm, eval, map[], outer, combo)
      ensures Folds(outer) && (forall f | f in t.fields :: Safe(t, eval, f)) ==> RowMeans(t, nm, eval, map[], outer, combo)
    {
      RunReturns(t, 0, ord, nm, eval, map[], outer, {}, combo);
      RunMeans(t, 0, ord, nm, eval, map[], outer, {}, combo);
    }
    forall eval: Evaluator, combo, o, c | Fits(t, combo) && Runs(t, combo, o) && o in LeafOrders(t) && Foreign(t, o, c)
      ensures nm.name(c) in EnvAt(t, nm, eval, map[], combo, o)
      ensures EnvAt(t, nm, eval, map[], combo, o)[nm.name(c)] == ValueIn(t, combo, c)
    {
      LeafBound(t, 0, ord, nm, eval, map[], _ => Null, {}, combo, o, c);
      LeafColumn(t, 0, ord, o);
    }
  }

  /** The plan of a select with cross-shard joins, from its FROM clause to its queries. */
  class JoinPlan {
    var root: Tree
    const ord: map<string, int>

    /** What every step of planning keeps. */
    ghost predicate Valid()
      reads this
    {
      Planned(root, 0, ord) && NoVars(root) && ord.Keys <= Tables(root)
    }

    constructor (from: Tree)
      requires Blank(from) && Unique(from)
      ensures Valid() && root == ReOrder(from, 0)
    {
      root := ReOrder(from, 0);
      ord := Orders(ReOrder(from, 0));
      new;
      NumberedPlanned(from);
      BlankNoVars(from, 0);
      OrdersTables(root);
    }

    /** Asks a node for a field over its tables; the place returned is where the field now is. */
    method AskField(path: seq<Dir>, f: Field) returns (idx: Option<nat>)
      requires Valid() && At(root, path).Some? && Within(f, Tables(At(root, path).value))
      modifies this`root
      ensures Valid()
      ensures idx.Some? ==>
                && At(root, path).Some? && idx.value == |At(old(root), path).value.fields|
                && At(root, path).value.fields == At(old(root), path).value.fields + [f]
      ensures idx.None? ==> root == old(root)
    {
      var node := At(root, path).value;
      var p := PushSelectExpr(node, f);
      var r := StepAt(root, path, Ask(f));
      if p.None? || r.None? {
        return None;
      }
      StepKeeps(root, path, Ask(f), 0, ord);
      StepNoVars(root, path, Ask(f));
      StepAtHere(root, path, Ask(f));
      PushGrows(node, f);
      root := r.value;
      return Some(p.value.1);
    }

    /** Makes a node, and everything below it, nested-loop joins. */
    method SetNestLoop(path: seq<Dir>)
      requires Valid() && At(root, path).Some?
      modifies this`root
      ensures Valid() && At(root, path).Some? && AllNest(At(root, path).value)
    {
      var r := StepAt(root, path, Nest);
      NestSteps(root, path);
      StepKeeps(root, path, Nest, 0, ord);
      StepNoVars(root, path, Nest);
      StepAtHere(root, path, Nest);
      SetNestSame(At(root, path).value);
      root := r.value;
    }

    /** Sends a condition over a nested-loop node's tables to the last of the leaves it is about. */
    method AddFilter(path: seq<Dir>, f: Field)
      requires Valid() && At(root, path).Some? && Within(f, Tables(At(root, path).value)) && AllNest(At(root, path).value)
      requires Columns(f) != []
      modifies this`root
      ensures Valid() && exists c | c in Columns(f) ::
                && c.qualifier in ord && f in Leaf(root, ord[c.qualifier]).wheres
                && forall d | d in Columns(f) :: d.qualifier in ord && ord[d.qualifier] <= ord[c.qualifier]
    {
      NodeKnown(root, path, 0, ord);
      var tables := seq(|Columns(f)|, i requires 0 <= i < |Columns(f)| => Columns(f)[i].qualifier);
      forall i | 0 <= i < |tables| ensures tables[i] in ord {
        assert Columns(f)[i] in Columns(f);
      }
      var m := LastLeaf(tables, ord);
      var s := Filter(f, m);
      assert StepFits(At(root, path).value, s, ord) by {
        forall c | c in Columns(f) ensures c.qualifier in ord && ord[c.qualifier] <= m {
          var i :| 0 <= i < |Columns(f)| && Columns(f)[i] == c;
          assert tables[i] == c.qualifier && tables[i] in tables;
        }
      }
      WhereSteps(root, path, m, f);
      StepKeeps(root, path, s, 0, ord);
      StepNoVars(root, path, s);
      ghost var x :| x in tables && ord[x] == m;
      ghost var i :| 0 <= i < |tables| && tables[i] == x;
      assert Columns(f)[i] in Columns(f) && Columns(f)[i].qualifier == x;
      WherePlaced(root, path, 0, ord, f, x);
      root := StepAt(root, path, s).value;
    }

    /** Builds the queries: whatever rows the leaves have, the rows returned have the value of each field
        at its place, or NULL where it was asked of a missing side; for safe fields it is always the value. No
        variable is missing on the way. */
    method BuildQuery(nm: Naming)
      requires Valid() && nm.Apart() && Uses(root) <= nm.used
      modifies this`root
      ensures Grown(old(root), root) && root.fields == old(root).fields
      ensures forall eval, outer, combo | Fits(root, combo) :: RowReturns(root, nm, eval, map[], outer, combo)
      ensures forall eval, outer, combo | Fits(root, combo) && Folds(outer) && (forall f | f in old(root).fields :: Safe(old(root), eval, f)) ::
                RowMeans(root, nm, eval, map[], outer, combo)
      ensures forall eval, combo, o, c | Fits(root, combo) && Runs(root, combo, o) && o in LeafOrders(root) && Foreign(root, o, c) ::
                && nm.name(c) in EnvAt(root, nm, eval, map[], combo, o)
                && EnvAt(root, nm, eval, map[], combo, o)[nm.name(c)] == ValueIn(root, combo, c)
    {
      NoVarsOk(root, nm);
      root := BuildQueries(root, ord, nm);
      BuiltRuns(root, ord, nm);
      forall eval: Evaluator, f ensures Safe(root, eval, f) <==> Safe(old(root), eval, f) {
        SafeShape(root, old(root), eval, f);
      }
    }
  }

  lemma {:induction false} NestSteps(t: Tree, path: seq<Dir>)
    requires At(t, path).Some?
    ensures StepAt(t, path, Nest).Some?
    decreases |path|
  {
    if path != [] {
      NestSteps(if path[0] == L then t.left else t.right, path[1..]);
    }
  }

  lemma {:induction false} WhereSteps(t: Tree, path: seq<Dir>, order: int, f: Field)
    requires At(t, path).Some?
    ensures StepAt(t, path, Filter(f, order)).Some? && Grown(t, StepAt(t, path, Filter(f, order)).value)
    decreases |path|
  {
    if path == [] {
      WhereSame(t, order, f);
    } else {
      WhereSteps(if path[0] == L then t.left else t.right, path[1..], order, f);
    }
  }

  lemma {:induction false} NodeKnown(t: Tree, path: seq<Dir>, lo: int, ord: map<string, int>)
    requires Planned(t, lo, ord) && At(t, path).Some?
    ensures forall x | x in Tables(At(t, path).value) :: x in ord && x in Tables(t)
    decreases |path|
  {
    if path == [] {
      forall x | x in Tables(t) ensures x in ord {
        TableOrder(t, lo, ord, x);
      }
    } else {
      NodeKnown(if path[0] == L then t.left else t.right, path[1..], if path[0] == L then lo else t.left.order, ord);
    }
  }

  lemma {:induction false} WhereLeaf(t: Tree, order: int, f: Field)
    requires order in LeafOrders(t)
    ensures f in Leaf(AddWhere(t, order, f), order).wheres
  {
    if t.Join? {
      WhereSame(t.left, order, f);
      WhereLeaf(if order in LeafOrders(t.left) then t.left else t.right, order, f);
    }
  }

  /** The condition is in the text of the leaf it was sent to. */
  lemma {:induction false} WherePlaced(t: Tree, path: seq<Dir>, lo: int, ord: map<string, int>, f: Field, x: string)
    requires Planned(t, lo, ord) && At(t, path).Some? && x in Tables(At(t, path).value) && x in ord
    requires StepAt(t, path, Filter(f, ord[x])).Some?
    ensures f in Leaf(StepAt(t, path, Filter(f, ord[x])).value, ord[x]).wheres
    decreases |path|
  {
    NodeKnown(t, path, lo, ord);
    TableOrder(t, lo, ord, x);
    if path == [] {
      WhereLeaf(t, ord[x], f);
    } else {
      TableSide(t, lo, ord, x);
      if path[0] == L {
        NodeKnown(t.left, path[1..], lo, ord);
        WhereSteps(t.left, path[1..], ord[x], f);
        WherePlaced(t.left, path[1..], lo, ord, f, x);
      } else {
        NodeKnown(t.right, path[1..], t.left.order, ord);
        WherePlaced(t.right, path[1..], t.left.order, ord, f, x);
      }
    }
  }

  // ---------------------------------------------------------------- limits of the field query

  lemma UsesOne(tables: set<string>, order: int, f: Field, query: Option<Query>)
    ensures forall c :: c in Uses(Merge(tables, order, [f], [], query)) <==> c in Columns(f)
    ensures forall c :: c in Uses(Merge(tables, order, [], [f], query)) <==> c in Columns(f)
  {
    assert f in [f];
  }

  lemma SmallPlan(left: Tree, right: Tree, t: Tree, ord: map<string, int>, nm: Naming, x: Column, y: Column)
    requires x == Predicates.Column("b", "x") && y == Predicates.Column("c", "y")
    requires left == Merge({"b"}, 1, [ColField(x)], [], None) && right == Merge({"c"}, 2, [], [ExprField([x, y], 0, false)], None)
    requires t == Join(left, right, 3, [], [], map["b_x" := 0], true, false) && ord == map["b" := 1, "c" := 2] && nm == Naming(JoinVar, {x, y})
    ensures Uses(left) == {x} && Uses(right) == {x, y} && Planned(t, 0, ord)
  {
    UsesOne({"b"}, 1, ColField(x), None);
    UsesOne({"c"}, 2, ExprField([x, y], 0, false), None);
    assert Columns(ColField(x)) == [x] && Columns(ExprField([x, y], 0, false)) == [x, y];
    assert Uses(left) == {x} && Uses(right) == {x, y};
    assert Knows(left, ord) && Knows(right, ord) && Backward(left, ord) && Backward(right, ord);
  }

  /** A nested-loop join of `b` and `c` whose right side compares with a column of its left side: its rows
      are right, but its field query does not find the variable. */
  lemma FieldQueryFails() returns (t: Tree, ord: map<string, int>, nm: Naming)
    ensures Runnable(t, 0, ord, nm, {}) && nm.Apart() && Uses(t) <= nm.used
    ensures !FieldsBound(t, nm, NamesOf(nm, {}))
  {
    var x, y := Predicates.Column("b", "x"), Predicates.Column("c", "y");
    var left := Merge({"b"}, 1, [ColField(x)], [], None);
    var right := Merge({"c"}, 2, [], [ExprField([x, y], 0, false)], None);
    t := Join(left, right, 3, [], [], map["b_x" := 0], true, false);
    ord := map["b" := 1, "c" := 2];
    nm := Naming(JoinVar, {x, y});
    SmallPlan(left, right, t, ord, nm, x, y);
    assert Compliant("b") == "b" && Compliant("c") == "c" && Compliant("x") == "x" && Compliant("y") == "y";
    assert JoinVar(x) == "b_x" && JoinVar(y) == "c_y" && "b_x"[0] != "c_y"[0];
    assert Points(left, 0, x) && VarsOk(left, nm) && VarsOk(right, nm);
    forall o, c | o in LeafOrders(t) && Foreign(t, o, c) ensures c in Reach(t, nm, o) {
      assert LeafOrders(left) == {1} && LeafOrders(right) == {2} && LeafOrders(t) == LeafOrders(left) + LeafOrders(right);
      assert Leaf(t, 1) == left && Leaf(t, 2) == right;
      assert c == x && o == 2 && x in Bound(t, nm);
    }
    assert x in Uses(right) && x.qualifier !in right.tables && nm.name(x) !in NamesOf(nm, {});
  }
}
