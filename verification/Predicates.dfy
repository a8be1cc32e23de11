/** WHERE clauses: their three-valued meaning, and the rewriting the planner does on them. Truth
    values follow sections 8.4 (in predicate) and 8.12 (search condition) of SQL-92. */
module Predicates {
  import opened Text
  import opened Bags
  import opened Values
  import opened HashPartition

  datatype Column = Column(qualifier: string, name: string)

  datatype Op = EqualOp | InOp | OtherOp(name: string)

  datatype Expr =
    | AndExpr(left: Expr, right: Expr)
    | OrExpr(left: Expr, right: Expr)
    | ParenExpr(expr: Expr)
    | ComparisonExpr(op: Op, left: Expr, right: Expr)
    | ColName(col: Column)
    | SQLVal(val: Literal)
    | ValTuple(vals: seq<Expr>)
    | OtherExpr(id: nat)

  datatype Tri = True | False | Unknown

  /** A row to evaluate on, with the meaning of everything the planner does not look into. Column
      names are compared without regard to case. */
  datatype Env = Env(
    column: (string, string) -> Value,
    literal: Literal -> Known,
    other: nat -> Value,
    tuple: seq<Value> -> Value,
    compare: (string, Value, Value) -> Tri)

  // ---------------------------------------------------------------- meaning

  function And(a: Tri, b: Tri): (c: Tri) {
    if a == False || b == False then False else if a == True && b == True then True else Unknown
  }

  function Or(a: Tri, b: Tri): (c: Tri) {
    if a == True || b == True then True else if a == False && b == False then False else Unknown
  }

  function Equal(a: Value, b: Value): (c: Tri) {
    if a.Null? || b.Null? then Unknown else if a.rank == b.rank then True else False
  }

  function ToTri(v: Value): (t: Tri) {
    if v.Null? then Unknown else if v.truth then True else False
  }

  function FromTri(t: Tri): (v: Value) {
    match t
    case True => Val(1.0, true, "1")
    case False => Val(0.0, false, "0")
    case Unknown => Null
  }

  /** `v` is equal to any of the values. */
  function In(v: Value, vals: seq<Value>): (t: Tri) {
    if vals == [] then False else Or(In(v, vals[..|vals| - 1]), Equal(v, vals[|vals| - 1]))
  }

  function ColumnValue(c: Column, env: Env): (v: Value) {
    env.column(c.qualifier, Fold(c.name))
  }

  function Scalar(e: Expr, env: Env): (v: Value)
    decreases e, 1
  {
    match e
    case ColName(c) => ColumnValue(c, env)
    case SQLVal(l) => env.literal(l)
    case ValTuple(vals) => env.tuple(Scalars(vals, env))
    case OtherExpr(id) => env.other(id)
    case ParenExpr(inner) => Scalar(inner, env)
    case _ => FromTri(Eval(e, env))
  }

  function Scalars(es: seq<Expr>, env: Env): (vs: seq<Value>)
    decreases es
  {
    if es == [] then [] else Scalars(es[..|es| - 1], env) + [Scalar(es[|es| - 1], env)]
  }

  function Eval(e: Expr, env: Env): (t: Tri)
    decreases e, 0
  {
    match e
    case AndExpr(l, r) => And(Eval(l, env), Eval(r, env))
    case OrExpr(l, r) => Or(Eval(l, env), Eval(r, env))
    case ParenExpr(inner) => Eval(inner, env)
    case ComparisonExpr(EqualOp, l, r) => Equal(Scalar(l, env), Scalar(r, env))
    case ComparisonExpr(InOp, l, ValTuple(vals)) => In(Scalar(l, env), Scalars(vals, env))
    case ComparisonExpr(InOp, l, r) => env.compare("in", Scalar(l, env), Scalar(r, env))
    case ComparisonExpr(OtherOp(name), l, r) => env.compare(name, Scalar(l, env), Scalar(r, env))
    case ColName(c) => ToTri(ColumnValue(c, env))
    case SQLVal(l) => ToTri(env.literal(l))
    case ValTuple(vals) => ToTri(env.tuple(Scalars(vals, env)))
    case OtherExpr(id) => ToTri(env.other(id))
  }

  /** The conjunction of some filters. */
  function AllTrue(filters: seq<Expr>, env: Env): (t: Tri) {
    if filters == [] then True else And(AllTrue(filters[..|filters| - 1], env), Eval(filters[|filters| - 1], env))
  }

  /** The disjunction of some conditions. */
  function AnyTrue(subs: seq<Expr>, env: Env): (t: Tri) {
    if subs == [] then False else Or(AnyTrue(subs[..|subs| - 1], env), Eval(subs[|subs| - 1], env))
  }

  /** Two expressions with the same truth value on every row. */
  ghost predicate SameMeaning(e: Expr, e': Expr) {
    forall env :: Eval(e, env) == Eval(e', env)
  }

  // ---------------------------------------------------------------- splitting at AND

  function SplitAndExpression(filters: seq<Expr>, e: Expr): (r: seq<Expr>)
    decreases e
  {
    match e
    case AndExpr(l, r) => SplitAndExpression(SplitAndExpression(filters, l), r)
    case ParenExpr(inner) =>
      if inner.AndExpr? then SplitAndExpression(filters, inner) else filters + [e]
    case _ => filters + [e]
  }

  function SkipParenthesis(e: Expr): (r: Expr) {
    if e.ParenExpr? then SkipParenthesis(e.expr) else e
  }

  lemma AllTrueAppend(filters: seq<Expr>, e: Expr, env: Env)
    ensures AllTrue(filters + [e], env) == And(AllTrue(filters, env), Eval(e, env))
  {
    assert (filters + [e])[..|filters|] == filters;
  }

  /** Splitting keeps the meaning: the conjunction of the filters is the expression. */
  lemma {:induction false} SplitMeaning(filters: seq<Expr>, e: Expr, env: Env)
    ensures AllTrue(SplitAndExpression(filters, e), env) == And(AllTrue(filters, env), Eval(e, env))
    decreases e
  {
    AllTrueAppend(filters, e, env);
    match e
    case AndExpr(l, r) =>
      SplitMeaning(filters, l, env);
      SplitMeaning(SplitAndExpression(filters, l), r, env);
    case ParenExpr(inner) =>
      if inner.AndExpr? {
        SplitMeaning(filters, inner, env);
      }
    case _ =>
  }

  lemma {:induction false} SkipMeaning(e: Expr, env: Env)
    ensures Eval(SkipParenthesis(e), env) == Eval(e, env)
  {
    if e.ParenExpr? {
      SkipMeaning(e.expr, env);
    }
  }

  // ---------------------------------------------------------------- OR of equalities to IN

  /** Columns collected from `column = literal` conditions, with their literals. */
  type InMap = map<Column, seq<Literal>>

  predicate SameColumn(c: Column, d: Column) {
    Fold(c.name) == Fold(d.name) && c.qualifier == d.qualifier
  }

  /** No column is in the map under two spellings, and each has a literal. */
  predicate OneSpelling(m: InMap) {
    && (forall c, d | c in m && d in m && SameColumn(c, d) :: c == d)
    && (forall c | c in m :: m[c] != [])
  }

  function Literals(vals: seq<Literal>, env: Env): (vs: seq<Value>)
    ensures |vs| == |vals|
  {
    seq(|vals|, i requires 0 <= i < |vals| => env.literal(vals[i]))
  }

  function InColumn(c: Column, vals: seq<Literal>, env: Env): (t: Tri) {
    In(ColumnValue(c, env), Literals(vals, env))
  }

  /** The disjunction of the IN conditions the map stands for. */
  ghost function AnyIn(m: InMap, env: Env): (t: Tri) {
    if exists c | c in m :: InColumn(c, m[c], env) == True then True
    else if exists c | c in m :: InColumn(c, m[c], env) == Unknown then Unknown
    else False
  }

  /** A further literal for a column: one more equality in the disjunction. */
  lemma AnyInAdd(m: InMap, c: Column, v: Literal, env: Env)
    ensures var before := if c in m then m[c] else [];
      AnyIn(m[c := before + [v]], env) == Or(AnyIn(m, env), Equal(ColumnValue(c, env), env.literal(v)))
  {
    var before := if c in m then m[c] else [];
    var m' := m[c := before + [v]];
    var vs := Literals(before + [v], env);
    assert vs[..|before|] == Literals(before, env);
    assert InColumn(c, m'[c], env) == Or(In(ColumnValue(c, env), Literals(before, env)), Equal(ColumnValue(c, env), env.literal(v)));
    assert c in m' && forall d | d in m && d != c :: d in m' && m'[d] == m[d];
    if AnyIn(m, env) == True {
      var d :| d in m && InColumn(d, m[d], env) == True;
      assert InColumn(d, m'[d], env) == True;
    } else if AnyIn(m', env) != True && AnyIn(m, env) == Unknown {
      var d :| d in m && InColumn(d, m[d], env) == Unknown;
      assert d in m' && InColumn(d, m'[d], env) == Unknown;
    }
  }

  /** The spelling the map already has for a column, or the column itself. */
  method CheckColInMap(m: InMap, c: Column) returns (k: Column)
    requires OneSpelling(m)
    ensures SameColumn(k, c)
    ensures k in m <==> exists d | d in m :: SameColumn(c, d)
    ensures k !in m ==> k == c
  {
    var keys := m.Keys;
    while keys != {}
      invariant keys <= m.Keys
      invariant forall d | d in m && d !in keys :: !SameColumn(c, d)
      decreases keys
    {
      var d :| d in keys;
      if SameColumn(c, d) {
        return d;
      }
      keys := keys - {d};
    }
    return c;
  }

  /** The disjunction that a list of conditions and a map stand for. */
  ghost function Collected(subs: seq<Expr>, m: InMap, env: Env): (t: Tri) {
    Or(AnyTrue(subs, env), AnyIn(m, env))
  }

  /** The conditions and the map mean what `m` and the condition `e` mean together. */
  ghost predicate SplitsTo(e: Expr, m: InMap, subs: seq<Expr>, m': InMap) {
    forall env :: Collected(subs, m', env) == Or(AnyIn(m, env), Eval(e, env))
  }

  predicate KeyEquality(e: Expr, c: Column, v: Literal) {
    && e.ComparisonExpr? && e.op == EqualOp
    && ((e.left == ColName(c) && e.right == SQLVal(v)) || (e.left == SQLVal(v) && e.right == ColName(c)))
  }

  /** Nothing but equalities of one column with literals, joined by OR. */
  predicate OnlyEqualities(e: Expr, c: Column) {
    match e
    case OrExpr(l, r) => OnlyEqualities(l, c) && OnlyEqualities(r, c)
    case ParenExpr(inner) => OnlyEqualities(inner, c)
    case ComparisonExpr(EqualOp, ColName(d), SQLVal(_)) => SameColumn(d, c)
    case ComparisonExpr(EqualOp, SQLVal(_), ColName(d)) => SameColumn(d, c)
    case _ => false
  }

  /** Every column of the map is `c`, in some spelling. */
  predicate AllOf(m: InMap, c: Column) {
    forall k | k in m :: SameColumn(k, c)
  }

  // ---------------------------------------------------------------- literals listed for a column

  /** The condition, or one it is an OR of, compares the column with the literal: by an equality or in
      an IN list. */
  predicate Lists(e: Expr, c: Column, v: Literal) {
    match e
    case OrExpr(l, r) => Lists(l, c, v) || Lists(r, c, v)
    case ParenExpr(inner) => Lists(inner, c, v)
    case ComparisonExpr(EqualOp, ColName(d), SQLVal(w)) => SameColumn(d, c) && w == v
    case ComparisonExpr(EqualOp, SQLVal(w), ColName(d)) => SameColumn(d, c) && w == v
    case ComparisonExpr(InOp, ColName(d), ValTuple(vals)) => SameColumn(d, c) && SQLVal(v) in vals
    case _ => false
  }

  predicate AnyLists(subs: seq<Expr>, c: Column, v: Literal) {
    exists s | s in subs :: Lists(s, c, v)
  }

  predicate MapLists(m: InMap, c: Column, v: Literal) {
    exists k | k in m :: SameColumn(k, c) && v in m[k]
  }

  /** The conditions and the map list what `m` and the condition `e` list together. */
  ghost predicate ListedBy(e: Expr, m: InMap, subs: seq<Expr>, m': InMap) {
    forall c, v :: AnyLists(subs, c, v) || MapLists(m', c, v) <==> MapLists(m, c, v) || Lists(e, c, v)
  }

  ghost predicate SameListed(e: Expr, e': Expr) {
    forall c, v :: Lists(e, c, v) <==> Lists(e', c, v)
  }

  lemma AnyListsAppend(subs: seq<Expr>, more: seq<Expr>, c: Column, v: Literal)
    ensures AnyLists(subs + more, c, v) <==> AnyLists(subs, c, v) || AnyLists(more, c, v)
  {
    if s :| s in subs && Lists(s, c, v) {
      InEither(subs, more, s);
    }
    if s :| s in more && Lists(s, c, v) {
      InEither(subs, more, s);
    }
    if s :| s in subs + more && Lists(s, c, v) {
      InEither(subs, more, s);
    }
  }

  lemma MapListsAdd(m: InMap, k: Column, v: Literal, c: Column, w: Literal)
    ensures var before := if k in m then m[k] else [];
      MapLists(m[k := before + [v]], c, w) <==> MapLists(m, c, w) || (SameColumn(k, c) && v == w)
  {
    var before := if k in m then m[k] else [];
    var m' := m[k := before + [v]];
    InEither(before, [v], w);
    assert k in m' && m'[k] == before + [v];
    if d :| d in m && SameColumn(d, c) && w in m[d] {
      assert d in m' && w in m'[d];
    }
    if SameColumn(k, c) && v == w {
      assert w in m'[k];
    }
  }

  lemma {:induction false} SkipLists(e: Expr, c: Column, v: Literal)
    ensures Lists(SkipParenthesis(e), c, v) == Lists(e, c, v)
  {
    if e.ParenExpr? {
      SkipLists(e.expr, c, v);
    }
  }

  lemma OrListed(l: Expr, r: Expr, m: InMap, left: seq<Expr>, m1: InMap, right: seq<Expr>, m2: InMap)
    requires ListedBy(l, m, left, m1) && ListedBy(r, m1, right, m2)
    ensures ListedBy(OrExpr(l, r), m, left + right, m2)
  {
    forall c, v ensures AnyLists(left + right, c, v) || MapLists(m2, c, v) <==> MapLists(m, c, v) || Lists(OrExpr(l, r), c, v) {
      AnyListsAppend(left, right, c, v);
    }
  }

  lemma EqualityListed(e: Expr, m: InMap, m': InMap, c: Column, v: Literal)
    requires KeyEquality(e, c, v)
    requires forall d, w :: MapLists(m', d, w) <==> MapLists(m, d, w) || (SameColumn(c, d) && v == w)
    ensures ListedBy(e, m, [], m')
  {
  }

  lemma OneListed(e: Expr, m: InMap)
    ensures ListedBy(e, m, [e], m)
  {
    forall c, v ensures AnyLists([e], c, v) <==> Lists(e, c, v) {
      assert e in [e];
    }
  }

  lemma ParenListed(e: Expr, m: InMap, subs: seq<Expr>, m': InMap)
    requires ListedBy(SkipParenthesis(e), m, subs, m')
    ensures ListedBy(e, m, subs, m')
  {
    forall c, v ensures Lists(SkipParenthesis(e), c, v) == Lists(e, c, v) {
      SkipLists(e, c, v);
    }
  }

  /** A listed literal as the value of the column makes the condition TRUE. */
  lemma {:induction false} ListedMeets(e: Expr, c: Column, v: Literal, env: Env)
    requires Lists(e, c, v) && Equal(ColumnValue(c, env), env.literal(v)) == True
    ensures Eval(e, env) == True
  {
    match e
    case OrExpr(l, r) =>
      if Lists(l, c, v) {
        ListedMeets(l, c, v, env);
      } else {
        ListedMeets(r, c, v, env);
      }
    case ParenExpr(inner) => ListedMeets(inner, c, v, env);
    case ComparisonExpr(InOp, ColName(d), ValTuple(vals)) =>
      var j: nat :| j < |vals| && vals[j] == SQLVal(v);
      ScalarsAt(vals, env, j);
      InListed(ColumnValue(d, env), Scalars(vals, env), j);
    case _ =>
  }

  lemma {:induction false} ScalarsAt(es: seq<Expr>, env: Env, j: nat)
    ensures |Scalars(es, env)| == |es|
    ensures j < |es| ==> Scalars(es, env)[j] == Scalar(es[j], env)
    decreases |es|
  {
    if es != [] {
      ScalarsAt(es[..|es| - 1], env, j);
    }
  }

  lemma {:induction false} InListed(v: Value, vals: seq<Value>, j: nat)
    requires j < |vals| && SqlEqual(v, vals[j])
    ensures In(v, vals) == True
    decreases |vals|
  {
    if j < |vals| - 1 {
      InListed(v, vals[..|vals| - 1], j);
    }
  }

  lemma EqualitySplits(e: Expr, m: InMap, m': InMap, c: Column, v: Literal)
    requires KeyEquality(e, c, v)
    requires forall env :: AnyIn(m', env) == Or(AnyIn(m, env), Equal(ColumnValue(c, env), env.literal(v)))
    ensures SplitsTo(e, m, [], m')
  {
  }

  lemma {:induction false} SkipOnlyEqualities(e: Expr, c: Column)
    ensures OnlyEqualities(SkipParenthesis(e), c) == OnlyEqualities(e, c)
  {
    if e.ParenExpr? {
      SkipOnlyEqualities(e.expr, c);
    }
  }

  /** Puts `column = literal` into the map. */
  method AddToMap(m: InMap, c: Column, v: Literal) returns (m': InMap)
    requires OneSpelling(m)
    ensures OneSpelling(m') && m' != map[]
    ensures forall d :: AllOf(m, d) && SameColumn(c, d) ==> AllOf(m', d)
    ensures forall env :: AnyIn(m', env) == Or(AnyIn(m, env), Equal(ColumnValue(c, env), env.literal(v)))
    ensures forall d, w :: MapLists(m', d, w) <==> MapLists(m, d, w) || (SameColumn(c, d) && v == w)
  {
    var k := CheckColInMap(m, c);
    m' := m[k := (if k in m then m[k] else []) + [v]];
    assert k in m';
    forall d, w ensures MapLists(m', d, w) <==> MapLists(m, d, w) || (SameColumn(c, d) && v == w) {
      MapListsAdd(m, k, v, d, w);
    }
    forall env ensures AnyIn(m', env) == Or(AnyIn(m, env), Equal(ColumnValue(c, env), env.literal(v))) {
      AnyInAdd(m, k, v, env);
      assert ColumnValue(k, env) == ColumnValue(c, env);
    }
  }

  lemma AnyTrueAppend(subs: seq<Expr>, more: seq<Expr>, env: Env)
    ensures AnyTrue(subs + more, env) == Or(AnyTrue(subs, env), AnyTrue(more, env))
    decreases |more|
  {
    if more == [] {
      assert subs + more == subs;
    } else {
      assert (subs + more)[..|subs + more| - 1] == subs + more[..|more| - 1];
      AnyTrueAppend(subs, more[..|more| - 1], env);
    }
  }

  lemma OrRegroups(left: Tri, right: Tri, m: Tri, m1: Tri, m2: Tri, l: Tri, r: Tri)
    requires Or(left, m1) == Or(m, l) && Or(right, m2) == Or(m1, r)
    ensures Or(Or(left, right), m2) == Or(m, Or(l, r))
  {
  }

  lemma OrSplits(l: Expr, r: Expr, m: InMap, left: seq<Expr>, m1: InMap, right: seq<Expr>, m2: InMap)
    requires SplitsTo(l, m, left, m1) && SplitsTo(r, m1, right, m2)
    ensures SplitsTo(OrExpr(l, r), m, left + right, m2)
  {
    forall env ensures Collected(left + right, m2, env) == Or(AnyIn(m, env), Eval(OrExpr(l, r), env)) {
      OrSplitsOn(l, r, m, left, m1, right, m2, env);
    }
  }

  lemma OrSplitsOn(l: Expr, r: Expr, m: InMap, left: seq<Expr>, m1: InMap, right: seq<Expr>, m2: InMap, env: Env)
    requires Collected(left, m1, env) == Or(AnyIn(m, env), Eval(l, env))
    requires Collected(right, m2, env) == Or(AnyIn(m1, env), Eval(r, env))
    ensures Collected(left + right, m2, env) == Or(AnyIn(m, env), Eval(OrExpr(l, r), env))
  {
    AnyTrueAppend(left, right, env);
    OrRegroups(AnyTrue(left, env), AnyTrue(right, env), AnyIn(m, env), AnyIn(m1, env), AnyIn(m2, env), Eval(l, env), Eval(r, env));
  }

  lemma OneSplits(e: Expr, m: InMap)
    ensures SplitsTo(e, m, [e], m)
  {
    forall env ensures Collected([e], m, env) == Or(AnyIn(m, env), Eval(e, env)) {
      SingleCondition(e, env);
    }
  }

  lemma ParenSplits(e: Expr, m: InMap, subs: seq<Expr>, m': InMap)
    requires SplitsTo(SkipParenthesis(e), m, subs, m')
    ensures SplitsTo(e, m, subs, m')
  {
    forall env ensures Collected(subs, m', env) == Or(AnyIn(m, env), Eval(e, env)) {
      SkipMeaning(e, env);
    }
  }

  /** Breaks a condition up at OR. Equalities of a column with a literal go into the map, the other
      conditions are returned; together they mean the condition. */
  method SplitOrExpression(e: Expr, m: InMap) returns (subs: seq<Expr>, m': InMap)
    requires OneSpelling(m)
    ensures OneSpelling(m')
    ensures subs != [] || m' != map[]
    ensures m != map[] ==> m' != map[]
    ensures SplitsTo(e, m, subs, m') && ListedBy(e, m, subs, m')
    ensures forall c :: OnlyEqualities(e, c) && AllOf(m, c) ==> subs == [] && AllOf(m', c)
    decreases e
  {
    match e
    case OrExpr(l, r) =>
      var left, m1 := SplitOrExpression(l, m);
      var right, m2 := SplitOrExpression(r, m1);
      subs, m' := left + right, m2;
      OrSplits(l, r, m, left, m1, right, m2);
      OrListed(l, r, m, left, m1, right, m2);
    case ComparisonExpr(op, l, r) =>
      if op == EqualOp && l.ColName? && r.SQLVal? {
        m' := AddToMap(m, l.col, r.val);
        subs := [];
        EqualitySplits(e, m, m', l.col, r.val);
        EqualityListed(e, m, m', l.col, r.val);
      } else if op == EqualOp && !l.ColName? && r.ColName? && l.SQLVal? {
        m' := AddToMap(m, r.col, l.val);
        subs := [];
        EqualitySplits(e, m, m', r.col, l.val);
        EqualityListed(e, m, m', r.col, l.val);
      } else {
        subs, m' := [e], m;
        OneSplits(e, m);
        OneListed(e, m);
      }
    case ParenExpr(inner) =>
      ParenShrinks(e);
      subs, m' := SplitOrExpression(SkipParenthesis(e), m);
      ParenSplits(e, m, subs, m');
      ParenListed(e, m, subs, m');
      forall c ensures OnlyEqualities(SkipParenthesis(e), c) == OnlyEqualities(e, c) {
        SkipOnlyEqualities(e, c);
      }
    case _ =>
      subs, m' := [e], m;
      OneSplits(e, m);
      OneListed(e, m);
  }

  lemma SingleCondition(e: Expr, env: Env)
    ensures AnyTrue([e], env) == Eval(e, env)
  {
    assert [e][..0] == [];
  }

  lemma {:induction false} ParenShrinks(e: Expr)
    requires e.ParenExpr?
    ensures SkipParenthesis(e) < e
  {
    if e.expr.ParenExpr? {
      ParenShrinks(e.expr);
    }
  }

  function RebuildOr(node: Option<Expr>, e: Expr): (r: Expr) {
    if node.None? then e else OrExpr(node.value, e)
  }

  /** The truth value of a condition that may be absent. */
  function EvalSome(node: Option<Expr>, env: Env): (t: Tri) {
    if node.None? then False else Eval(node.value, env)
  }

  predicate ListsSome(node: Option<Expr>, c: Column, v: Literal) {
    node.Some? && Lists(node.value, c, v)
  }

  /** The part of the map outside some columns. */
  function Outside(m: InMap, keys: set<Column>): (r: InMap) {
    map c | c in m && c !in keys :: m[c]
  }

  function InExpr(c: Column, vals: seq<Literal>): (e: Expr) {
    ComparisonExpr(InOp, ColName(c), ValTuple(seq(|vals|, i requires 0 <= i < |vals| => SQLVal(vals[i]))))
  }

  lemma {:induction false} ScalarsOfLiterals(vals: seq<Literal>, es: seq<Expr>, env: Env)
    requires |es| == |vals| && forall i | 0 <= i < |vals| :: es[i] == SQLVal(vals[i])
    ensures Scalars(es, env) == Literals(vals, env)
    decreases |vals|
  {
    if vals != [] {
      var n := |vals| - 1;
      ScalarsOfLiterals(vals[..n], es[..n], env);
      assert Literals(vals, env)[..n] == Literals(vals[..n], env);
    }
  }

  lemma InExprMeaning(c: Column, vals: seq<Literal>, env: Env)
    ensures Eval(InExpr(c, vals), env) == InColumn(c, vals, env)
  {
    ScalarsOfLiterals(vals, InExpr(c, vals).right.vals, env);
  }

  /** One more column of the map written out as an IN condition. */
  lemma OutsideStep(m: InMap, keys: set<Column>, c: Column, env: Env)
    requires c in keys && c in m
    ensures AnyIn(Outside(m, keys - {c}), env) == Or(AnyIn(Outside(m, keys), env), InColumn(c, m[c], env))
  {
    var a, b := Outside(m, keys), Outside(m, keys - {c});
    assert c in b && b[c] == m[c];
    assert forall d | d in b :: d == c || (d in a && a[d] == b[d]);
    if AnyIn(a, env) == True {
      var d :| d in a && InColumn(d, a[d], env) == True;
      assert d in b && InColumn(d, b[d], env) == True;
    } else if AnyIn(a, env) == Unknown && AnyIn(b, env) != True {
      var d :| d in a && InColumn(d, a[d], env) == Unknown;
      assert d in b && InColumn(d, b[d], env) == Unknown;
    }
  }

  lemma OutsideListed(m: InMap, keys: set<Column>, k: Column, c: Column, v: Literal)
    requires k in keys && k in m
    ensures MapLists(Outside(m, keys - {k}), c, v) <==> MapLists(Outside(m, keys), c, v) || Lists(InExpr(k, m[k]), c, v)
  {
    var a, b := Outside(m, keys), Outside(m, keys - {k});
    assert k in b && b[k] == m[k];
    assert forall d | d in b :: d == k || (d in a && a[d] == b[d]);
    InExprLists(k, m[k], c, v);
    if d :| d in a && SameColumn(d, c) && v in a[d] {
      assert d in b && v in b[d];
    }
    if SameColumn(k, c) && v in m[k] {
      assert v in b[k];
    }
  }

  lemma InExprLists(k: Column, vals: seq<Literal>, c: Column, v: Literal)
    ensures Lists(InExpr(k, vals), c, v) <==> SameColumn(k, c) && v in vals
  {
    var es := InExpr(k, vals).right.vals;
    if v in vals {
      var i :| 0 <= i < |vals| && vals[i] == v;
      assert es[i] == SQLVal(v);
    }
  }

  lemma AnyListsStep(subs: seq<Expr>, i: nat, c: Column, v: Literal)
    requires i < |subs|
    ensures AnyLists(subs[..i + 1], c, v) <==> AnyLists(subs[..i], c, v) || Lists(subs[i], c, v)
  {
    TakeOneMore(subs, i);
    AnyListsAppend(subs[..i], [subs[i]], c, v);
    assert subs[i] in [subs[i]];
  }

  /** The conditions joined by OR again. */
  method JoinConditions(subs: seq<Expr>) returns (result: Option<Expr>)
    ensures result.None? <==> subs == []
    ensures forall env :: EvalSome(result, env) == AnyTrue(subs, env)
    ensures forall c, v :: ListsSome(result, c, v) <==> AnyLists(subs, c, v)
  {
    result := None;
    for i := 0 to |subs|
      invariant result.None? <==> i == 0
      invariant forall env :: EvalSome(result, env) == AnyTrue(subs[..i], env)
      invariant forall c, v :: ListsSome(result, c, v) <==> AnyLists(subs[..i], c, v)
    {
      assert subs[..i + 1][..i] == subs[..i];
      ghost var before := result;
      result := Some(RebuildOr(result, subs[i]));
      forall c, v ensures ListsSome(result, c, v) <==> AnyLists(subs[..i + 1], c, v) {
        AnyListsStep(subs, i, c, v);
        assert ListsSome(before, c, v) <==> AnyLists(subs[..i], c, v);
      }
    }
    assert subs[..|subs|] == subs;
  }

  /** The columns of the map added as IN conditions, in whatever order the map gives them. */
  method JoinIns(first: Option<Expr>, inMap: InMap) returns (result: Option<Expr>)
    requires first.Some? || inMap != map[]
    ensures result.Some?
    ensures forall env :: EvalSome(result, env) == Or(EvalSome(first, env), AnyIn(inMap, env))
    ensures forall c, v :: ListsSome(result, c, v) <==> ListsSome(first, c, v) || MapLists(inMap, c, v)
    ensures forall k :: first.None? && inMap.Keys == {k} ==> result.value == InExpr(k, inMap[k])
  {
    result := first;
    var keys := inMap.Keys;
    assert Outside(inMap, keys) == map[];
    while keys != {}
      invariant keys <= inMap.Keys
      invariant first.Some? || keys < inMap.Keys ==> result.Some?
      invariant keys == inMap.Keys ==> result == first
      invariant forall env :: EvalSome(result, env) == Or(EvalSome(first, env), AnyIn(Outside(inMap, keys), env))
      invariant forall c, v :: ListsSome(result, c, v) <==> ListsSome(first, c, v) || MapLists(Outside(inMap, keys), c, v)
      invariant forall k :: first.None? && inMap.Keys == {k} && keys == {} ==> result == Some(InExpr(k, inMap[k]))
      decreases keys
    {
      var k :| k in keys;
      ghost var before := result;
      result := Some(RebuildOr(result, InExpr(k, inMap[k])));
      forall env ensures EvalSome(result, env) == Or(EvalSome(first, env), AnyIn(Outside(inMap, keys - {k}), env)) {
        OutsideStep(inMap, keys, k, env);
        InExprMeaning(k, inMap[k], env);
        assert EvalSome(before, env) == Or(EvalSome(first, env), AnyIn(Outside(inMap, keys), env));
      }
      forall c, v
        ensures ListsSome(result, c, v) <==> ListsSome(first, c, v) || MapLists(Outside(inMap, keys - {k}), c, v)
      {
        OutsideListed(inMap, keys, k, c, v);
        assert ListsSome(before, c, v) <==> ListsSome(first, c, v) || MapLists(Outside(inMap, keys), c, v);
      }
      keys := keys - {k};
    }
    assert Outside(inMap, {}) == inMap;
  }

  /** A single IN condition on a column. */
  ghost predicate IsInOn(e: Expr, c: Column) {
    exists k, vals :: SameColumn(k, c) && vals != [] && e == InExpr(k, vals)
  }

  lemma OneKey(m: InMap, c: Column) returns (k: Column)
    requires OneSpelling(m) && AllOf(m, c) && m != map[]
    ensures m.Keys == {k} && SameColumn(k, c)
  {
    assert m.Keys != {};
    k :| k in m;
    forall d | d in m ensures d == k {
      assert SameColumn(d, k);
    }
  }

  lemma ConvertedMeaning(e: Expr, subs: seq<Expr>, inMap: InMap, first: Option<Expr>, r: Expr)
    requires SplitsTo(e, map[], subs, inMap)
    requires forall env :: EvalSome(first, env) == AnyTrue(subs, env)
    requires forall env :: Eval(r, env) == Or(EvalSome(first, env), AnyIn(inMap, env))
    ensures SameMeaning(r, e)
  {
    forall env ensures Eval(r, env) == Eval(e, env) {
      assert Collected(subs, inMap, env) == Or(AnyIn(map[], env), Eval(e, env));
    }
  }

  lemma ConvertedListed(e: Expr, subs: seq<Expr>, inMap: InMap, first: Option<Expr>, r: Expr)
    requires ListedBy(e, map[], subs, inMap)
    requires forall c, v :: ListsSome(first, c, v) <==> AnyLists(subs, c, v)
    requires forall c, v :: ListsSome(Some(r), c, v) <==> ListsSome(first, c, v) || MapLists(inMap, c, v)
    ensures SameListed(r, e)
  {
    forall c, v ensures Lists(r, c, v) <==> Lists(e, c, v) {
      assert !MapLists(map[], c, v);
      assert ListsSome(Some(r), c, v) <==> Lists(r, c, v);
    }
  }

  /** Turns an OR of equalities into IN conditions. The truth value on every row stays the same, the
      same literals are listed for the same columns, and an OR of equalities of one column becomes a
      single IN. */
  method ConvertOrToIn(e: Expr) returns (r: Expr)
    ensures SameMeaning(r, e) && SameListed(r, e)
    ensures !e.OrExpr? ==> r == e
    ensures forall c :: e.OrExpr? && OnlyEqualities(e, c) ==> IsInOn(r, c)
  {
    if !e.OrExpr? {
      return e;
    }
    var subs, inMap := SplitOrExpression(e, map[]);
    var first := JoinConditions(subs);
    var result := JoinIns(first, inMap);
    r := result.value;
    ConvertedMeaning(e, subs, inMap, first, r);
    ConvertedListed(e, subs, inMap, first, r);
    forall c | OnlyEqualities(e, c) ensures IsInOn(r, c) {
      var k := OneKey(inMap, c);
    }
  }

  /** The conjunctions have the same truth value on every row. */
  ghost predicate SameConjunction(filters: seq<Expr>, parts: seq<Expr>) {
    forall env :: AllTrue(filters, env) == AllTrue(parts, env)
  }

  lemma ConjunctionStep(filters: seq<Expr>, parts: seq<Expr>, converted: Expr, part: Expr)
    requires SameConjunction(filters, parts) && SameMeaning(converted, SkipParenthesis(part))
    ensures SameConjunction(filters + [converted], parts + [part])
  {
    forall env ensures AllTrue(filters + [converted], env) == AllTrue(parts + [part], env) {
      AllTrueAppend(filters, converted, env);
      AllTrueAppend(parts, part, env);
      SkipMeaning(part, env);
      assert Eval(converted, env) == Eval(SkipParenthesis(part), env);
    }
  }

  /** Everything the planner does to a WHERE clause before it looks at single conditions: the
      conjunction of the filters has the truth value of the clause on every row. */
  method RewriteFilters(e: Expr) returns (filters: seq<Expr>)
    ensures forall env :: AllTrue(filters, env) == Eval(e, env)
  {
    var parts := SplitAndExpression([], e);
    filters := [];
    for i := 0 to |parts|
      invariant SameConjunction(filters, parts[..i])
    {
      var filter := SkipParenthesis(parts[i]);
      var converted := ConvertOrToIn(filter);
      ConjunctionStep(filters, parts[..i], converted, parts[i]);
      assert parts[..i + 1] == parts[..i] + [parts[i]];
      filters := filters + [converted];
    }
    assert parts[..|parts|] == parts;
    forall env ensures AllTrue(filters, env) == Eval(e, env) {
      SplitMeaning([], e, env);
    }
  }
}
