/** The variables by which the right side of a nested-loop join refers to the current left row: made
    when the queries are built, bound when they run. */
module BindVars {
  import opened Text
  import opened Values
  import opened PlanTree
  import Predicates

  /** The names of the variables, and the columns they have to tell apart. */
  datatype Naming = Naming(name: Column -> string, used: set<Column>) {
    predicate Apart() {
      forall c, d | c in used && d in used && name(c) == name(d) :: c == d
    }
  }

  function CompliantChar(c: char, first: bool): (d: char) {
    if 'a' <= c <= 'z' || 'A' <= c <= 'Z' || c == '_' || c == '@' then c
    else if !first && '0' <= c <= '9' then c
    else '_'
  }

  /** The name with every character that a variable cannot have replaced by an underscore. */
  function Compliant(s: string): (t: string)
    ensures |t| == |s|
  {
    seq(|s|, i requires 0 <= i < |s| => CompliantChar(s[i], i == 0))
  }

  /** The names the planner gives: the table and the column with an underscore between them. */
  function JoinVar(c: Column): (s: string) {
    Compliant(c.qualifier) + "_" + Compliant(c.name)
  }

  // ---------------------------------------------------------------- leaves

  function Leaf(t: Tree, o: int): (m: Tree)
    ensures m.Merge?
  {
    match t
    case Merge(_, _, _, _, _) => t
    case Join(l, r, _, _, _, _, _, _) => if o in LeafOrders(l) then Leaf(l, o) else Leaf(r, o)
  }

  /** The leaf's text mentions a column of another leaf. */
  predicate Foreign(t: Tree, o: int, c: Column) {
    c in Uses(Leaf(t, o)) && c.qualifier !in Leaf(t, o).tables
  }

  /** The columns a join binds variables for. */
  function Bound(t: Tree, nm: Naming): (s: set<Column>)
    requires t.Join?
  {
    set c | c in nm.used && nm.name(c) in t.vars
  }

  /** The columns bound on the way down to the leaf. */
  function Reach(t: Tree, nm: Naming, o: int): (s: set<Column>) {
    match t
    case Merge(_, _, _, _, _) => {}
    case Join(l, r, _, _, _, _, nest, _) =>
      if o in LeafOrders(l) then Reach(l, nm, o)
      else (if nest then Bound(t, nm) else {}) + Reach(r, nm, o)
  }

  predicate Points(left: Tree, idx: nat, c: Column) {
    idx < |left.fields| && left.fields[idx].ColField? && Predicates.SameColumn(left.fields[idx].col, c) && c.qualifier in Tables(left)
  }

  /** Every variable of a join stands for the place of its column in the left rows. */
  predicate VarsOk(t: Tree, nm: Naming) {
    t.Join? ==>
      && (forall c | c in nm.used && nm.name(c) in t.vars :: Points(t.left, t.vars[nm.name(c)], c))
      && VarsOk(t.left, nm) && VarsOk(t.right, nm)
  }

  // ---------------------------------------------------------------- procuring a column

  /** The first place where the column is among the fields. */
  function FirstPlace(fields: seq<Field>, c: Column): (i: Option<nat>)
    ensures i.Some? ==> i.value < |fields| && fields[i.value].ColField? && Predicates.SameColumn(fields[i.value].col, c)
    ensures i.Some? ==> forall k | 0 <= k < i.value :: !(fields[k].ColField? && Predicates.SameColumn(fields[k].col, c))
    ensures i.None? ==> forall k | 0 <= k < |fields| :: !(fields[k].ColField? && Predicates.SameColumn(fields[k].col, c))
  {
    if fields == [] then None
    else if fields[0].ColField? && Predicates.SameColumn(fields[0].col, c) then Some(0)
    else
      var i := FirstPlace(fields[1..], c);
      if i.None? then None else Some(i.value + 1)
  }

  /** Makes a variable for a column of the join's left side, asking the left side for the column when
      it does not return it yet. */
  function Procure(t: Tree, nm: Naming, c: Column): (r: Tree)
    requires t.Join?
  {
    if nm.name(c) in t.vars then t
    else
      var i := FirstPlace(t.left.fields, c);
      if i.Some? then t.(vars := t.vars[nm.name(c) := i.value])
      else
        var p := PushSelectExpr(t.left, ColField(c));
        if p.None? then t else t.(left := p.value.0, vars := t.vars[nm.name(c) := p.value.1])
  }

  function ProcureAt(t: Tree, path: seq<Dir>, nm: Naming, c: Column): (r: Tree)
    decreases |path|
  {
    if t.Merge? then t
    else if path == [] then Procure(t, nm, c)
    else if path[0] == L then t.(left := ProcureAt(t.left, path[1..], nm, c))
    else t.(right := ProcureAt(t.right, path[1..], nm, c))
  }

  lemma {:induction false} ColumnPushed(t: Tree, c: Column)
    ensures PushSelectExpr(t, ColField(c)).Some?
  {
    if t.Join? {
      if Within(ColField(c), Tables(t.left)) {
        ColumnPushed(t.left, c);
      } else {
        ColumnPushed(t.right, c);
      }
    }
  }

  lemma {:induction false} ColumnPushLeaf(t: Tree, lo: int, ord: map<string, int>, nm: Naming, c: Column, o: int)
    requires Laid(t, lo, ord) && c.qualifier in ord && c.qualifier in Tables(t) && o in LeafOrders(t) && PushSelectExpr(t, ColField(c)).Some?
    ensures var t' := PushSelectExpr(t, ColField(c)).value.0;
      Leaf(t', o) == (if o == ord[c.qualifier] then PushedLeaf(Leaf(t, o), ColField(c)) else Leaf(t, o)) && Reach(t', nm, o) == Reach(t, nm, o)
    ensures o == ord[c.qualifier] ==> c.qualifier in Leaf(t, o).tables
  {
    if t.Join? {
      OrderBounds(t.left, lo);
      OrderBounds(t.right, t.left.order);
      if c.qualifier in Tables(t.left) {
        assert Within(ColField(c), Tables(t.left));
        PushGrows(t.left, ColField(c));
        TableOrder(t.left, lo, ord, c.qualifier);
        if o in LeafOrders(t.left) {
          ColumnPushLeaf(t.left, lo, ord, nm, c, o);
        }
      } else {
        assert c in Columns(ColField(c));
        assert !Within(ColField(c), Tables(t.left)) && Within(ColField(c), Tables(t.right));
        PushGrows(t.right, ColField(c));
        TableOrder(t.right, t.left.order, ord, c.qualifier);
        if o !in LeafOrders(t.left) {
          ColumnPushLeaf(t.right, t.left.order, ord, nm, c, o);
        }
      }
    }
  }

  lemma {:induction false} PushVars(t: Tree, f: Field, nm: Naming)
    requires VarsOk(t, nm) && PushSelectExpr(t, f).Some?
    ensures VarsOk(PushSelectExpr(t, f).value.0, nm)
  {
    if t.Join? {
      if Within(f, Tables(t.left)) {
        PushVars(t.left, f, nm);
        PushGrows(t.left, f);
      } else {
        PushVars(t.right, f, nm);
        SetNestVars(Asked(t, t.left, PushSelectExpr(t.right, f).value.0, PushSelectExpr(t.right, f).value.1 + 1, f), nm);
      }
    }
  }

  lemma {:induction false} SetNestVars(t: Tree, nm: Naming)
    requires VarsOk(t, nm)
    ensures VarsOk(SetNest(t), nm)
  {
    if t.Join? {
      SetNestVars(t.left, nm);
      SetNestVars(t.right, nm);
      SetNestSame(t.left);
    }
  }

  /** What procuring the column does to a node: everything a plan keeps is kept, and nothing more is
      mentioned than the column. */
  predicate Procured(t: Tree, t': Tree, lo: int, ord: map<string, int>, nm: Naming, c: Column) {
    && Planned(t', lo, ord) && Stepped(t, t') && t'.fields == t.fields && VarsOk(t', nm)
    && Uses(t') <= Uses(t) + {c}
  }

  lemma VarAdded(t: Tree, left: Tree, nm: Naming, c: Column, idx: nat)
    requires t.Join? && VarsOk(t, nm) && nm.Apart() && c in nm.used && VarsOk(left, nm)
    requires Grown(t.left, left) && Points(left, idx, c)
    ensures VarsOk(t.(left := left, vars := t.vars[nm.name(c) := idx]), nm)
  {
    var t' := t.(left := left, vars := t.vars[nm.name(c) := idx]);
    forall d | d in nm.used && nm.name(d) in t'.vars ensures Points(left, t'.vars[nm.name(d)], d) {
      if nm.name(d) != nm.name(c) {
        assert Points(t.left, t.vars[nm.name(d)], d);
      }
    }
  }

  /** The variables are no part of what a plan keeps. */
  lemma VarsApart(t: Tree, t': Tree, vars: map<string, nat>, lo: int, ord: map<string, int>)
    requires t'.Join? && Planned(t', lo, ord) && Stepped(t, t')
    ensures Planned(t'.(vars := vars), lo, ord) && Stepped(t, t'.(vars := vars)) && Uses(t'.(vars := vars)) == Uses(t')
  {
  }

  /** The left side after it was asked for the column. */
  lemma LeftAsked(t: Tree, lo: int, ord: map<string, int>, nm: Naming, c: Column) returns (left: Tree, idx: nat)
    requires t.Join? && Planned(t, lo, ord) && VarsOk(t, nm) && c.qualifier in Tables(t.left)
    ensures PushSelectExpr(t.left, ColField(c)) == Some((left, idx))
    ensures Planned(t.(left := left), lo, ord) && Stepped(t, t.(left := left)) && Uses(left) <= Uses(t.left) + {c}
    ensures VarsOk(left, nm) && Grown(t.left, left) && Points(left, idx, c)
  {
    ColumnPushed(t.left, c);
    left, idx := PushSelectExpr(t.left, ColField(c)).value.0, PushSelectExpr(t.left, ColField(c)).value.1;
    StepHereKeeps(t.left, Ask(ColField(c)), lo, ord);
    PushGrows(t.left, ColField(c));
    PushVars(t.left, ColField(c), nm);
    ChildStepped(t, left, t.right, lo, ord);
    assert Columns(ColField(c)) == [c];
  }

  lemma ProcureKeeps(t: Tree, lo: int, ord: map<string, int>, nm: Naming, c: Column)
    requires t.Join? && Planned(t, lo, ord) && VarsOk(t, nm) && nm.Apart() && c in nm.used && c.qualifier in Tables(t.left)
    ensures Procured(t, Procure(t, nm, c), lo, ord, nm, c) && nm.name(c) in Procure(t, nm, c).vars
    ensures Procure(t, nm, c).nest == t.nest && LeafOrders(Procure(t, nm, c).left) == LeafOrders(t.left)
  {
    if nm.name(c) !in t.vars {
      var i := FirstPlace(t.left.fields, c);
      if i.Some? {
        VarAdded(t, t.left, nm, c, i.value);
        VarsApart(t, t, t.vars[nm.name(c) := i.value], lo, ord);
      } else {
        var left, idx := LeftAsked(t, lo, ord, nm, c);
        VarAdded(t, left, nm, c, idx);
        VarsApart(t, t.(left := left), t.vars[nm.name(c) := idx], lo, ord);
      }
    }
  }

  /** One leaf before and after: another leaf's column was procured for some leaf. */
  predicate LeafKept(t: Tree, t': Tree, nm: Naming, c: Column, p: int, o: int) {
    && Reach(t, nm, o) <= Reach(t', nm, o)
    && (o == p || Leaf(t', o) == Leaf(t, o))
    && Leaf(t', o).query == Leaf(t, o).query
  }

  lemma ProcureLeaf(t: Tree, lo: int, ord: map<string, int>, nm: Naming, c: Column, o: int)
    requires t.Join? && Planned(t, lo, ord) && c.qualifier in ord && c.qualifier in Tables(t.left) && o in LeafOrders(t)
    ensures LeafKept(t, Procure(t, nm, c), nm, c, ord[c.qualifier], o)
  {
    ColumnPushed(t.left, c);
    PushGrows(t.left, ColField(c));
    if o in LeafOrders(t.left) {
      ColumnPushLeaf(t.left, lo, ord, nm, c, o);
    }
  }

  lemma {:induction false} LeafUses(t: Tree, o: int)
    requires o in LeafOrders(t)
    ensures Uses(Leaf(t, o)) <= Uses(t)
  {
    if t.Join? {
      LeafUses(if o in LeafOrders(t.left) then t.left else t.right, o);
    }
  }

  lemma TableSide(t: Tree, lo: int, ord: map<string, int>, x: string)
    requires t.Join? && Ordered(t, lo) && Knows(t, ord) && x in Tables(t) && x in ord
    ensures x in Tables(t.left) <==> ord[x] in LeafOrders(t.left)
    ensures x in Tables(t.right) <==> ord[x] in LeafOrders(t.right)
  {
    OrderBounds(t.left, lo);
    OrderBounds(t.right, t.left.order);
    if x in Tables(t.left) {
      TableOrder(t.left, lo, ord, x);
    }
    if x in Tables(t.right) {
      TableOrder(t.right, t.left.order, ord, x);
    }
  }

  /** The column is procured for the leaf `o`, at the lowest common ancestor. */
  ghost predicate Wanted(t: Tree, lo: int, ord: map<string, int>, nm: Naming, c: Column, o: int) {
    && Planned(t, lo, ord) && VarsOk(t, nm) && nm.Apart() && c in nm.used
    && c.qualifier in Tables(t) && c.qualifier in ord && o in LeafOrders(t) && ord[c.qualifier] < o && c in Uses(Leaf(t, o))
  }

  function ProcureFor(t: Tree, ord: map<string, int>, nm: Naming, c: Column, o: int): (t': Tree)
    requires c.qualifier in ord
  {
    var path := FindLCA(t, ord[c.qualifier], o);
    if path.None? then t else ProcureAt(t, path.value, nm, c)
  }

  /** The three ways the search for the lowest common ancestor goes. */
  lemma ProcureUnfolds(t: Tree, lo: int, ord: map<string, int>, nm: Naming, c: Column, o: int)
    requires Wanted(t, lo, ord, nm, c, o)
    ensures t.Join?
    ensures ProcureFor(t, ord, nm, c, o) ==
              if o in LeafOrders(t.left) then t.(left := ProcureFor(t.left, ord, nm, c, o))
              else if c.qualifier in Tables(t.right) then t.(right := ProcureFor(t.right, ord, nm, c, o))
              else Procure(t, nm, c)
    ensures o in LeafOrders(t.left) ==> Wanted(t.left, lo, ord, nm, c, o)
    ensures o !in LeafOrders(t.left) && c.qualifier in Tables(t.right) ==> Wanted(t.right, t.left.order, ord, nm, c, o)
    ensures o !in LeafOrders(t.left) && c.qualifier !in Tables(t.right) ==> c.qualifier in Tables(t.left) && t.nest
  {
    TableOrder(t, lo, ord, c.qualifier);
    var p := ord[c.qualifier];
    FindNone(t.left, p, o);
    FindNone(t.right, p, o);
    OrderBounds(t.left, lo);
    OrderBounds(t.right, t.left.order);
    TableSide(t, lo, ord, c.qualifier);
    if o in LeafOrders(t.left) {
      assert ([L] + FindLCA(t.left, p, o).value)[1..] == FindLCA(t.left, p, o).value;
    } else if c.qualifier in Tables(t.right) {
      assert ([R] + FindLCA(t.right, p, o).value)[1..] == FindLCA(t.right, p, o).value;
    } else {
      LeafUses(t.right, o);
    }
  }

  lemma ProcuredLeft(t: Tree, left: Tree, lo: int, ord: map<string, int>, nm: Naming, c: Column)
    requires t.Join? && Planned(t, lo, ord) && VarsOk(t, nm) && Procured(t.left, left, lo, ord, nm, c)
    ensures Procured(t, t.(left := left), lo, ord, nm, c)
  {
    ChildStepped(t, left, t.right, lo, ord);
    forall d | d in nm.used && nm.name(d) in t.vars ensures Points(left, t.vars[nm.name(d)], d) {
      assert Points(t.left, t.vars[nm.name(d)], d);
    }
  }

  lemma ProcuredRight(t: Tree, right: Tree, lo: int, ord: map<string, int>, nm: Naming, c: Column)
    requires t.Join? && Planned(t, lo, ord) && VarsOk(t, nm) && Procured(t.right, right, t.left.order, ord, nm, c)
    ensures Procured(t, t.(right := right), lo, ord, nm, c)
  {
    ChildStepped(t, t.left, right, lo, ord);
  }

  /** After a column was procured for a leaf, the leaf's way down binds it. */
  lemma {:induction false} ProcureForKeeps(t: Tree, lo: int, ord: map<string, int>, nm: Naming, c: Column, o: int)
    requires Wanted(t, lo, ord, nm, c, o)
    ensures Procured(t, ProcureFor(t, ord, nm, c, o), lo, ord, nm, c)
    ensures c in Reach(ProcureFor(t, ord, nm, c, o), nm, o)
  {
    ProcureUnfolds(t, lo, ord, nm, c, o);
    if o in LeafOrders(t.left) {
      ProcureForKeeps(t.left, lo, ord, nm, c, o);
      ProcuredLeft(t, ProcureFor(t.left, ord, nm, c, o), lo, ord, nm, c);
    } else if c.qualifier in Tables(t.right) {
      ProcureForKeeps(t.right, t.left.order, ord, nm, c, o);
      ProcuredRight(t, ProcureFor(t.right, ord, nm, c, o), lo, ord, nm, c);
    } else {
      ProcureKeeps(t, lo, ord, nm, c);
    }
  }

  /** Procuring a column changes no leaf but the column's own, and no leaf loses a binding. */
  lemma {:induction false} ProcureForLeaf(t: Tree, lo: int, ord: map<string, int>, nm: Naming, c: Column, o: int, p: int)
    requires Wanted(t, lo, ord, nm, c, o) && p in LeafOrders(t)
    ensures LeafKept(t, ProcureFor(t, ord, nm, c, o), nm, c, ord[c.qualifier], p)
  {
    ProcureUnfolds(t, lo, ord, nm, c, o);
    ProcureForKeeps(t, lo, ord, nm, c, o);
    if o in LeafOrders(t.left) {
      ProcureForKeeps(t.left, lo, ord, nm, c, o);
      if p in LeafOrders(t.left) {
        ProcureForLeaf(t.left, lo, ord, nm, c, o, p);
      }
    } else if c.qualifier in Tables(t.right) {
      ProcureForKeeps(t.right, t.left.order, ord, nm, c, o);
      if p !in LeafOrders(t.left) {
        ProcureForLeaf(t.right, t.left.order, ord, nm, c, o, p);
      }
    } else {
      ProcureLeaf(t, lo, ord, nm, c, p);
    }
  }

  lemma {:induction false} ProcureAtShape(t: Tree, path: seq<Dir>, nm: Naming, c: Column)
    ensures Shape(ProcureAt(t, path, nm, c)) == Shape(t)
    decreases |path|
  {
    if t.Join? {
      if path == [] {
        ColumnPushed(t.left, c);
        PushShape(t.left, ColField(c));
      } else {
        ProcureAtShape(if path[0] == L then t.left else t.right, path[1..], nm, c);
      }
    }
  }

  lemma ProcureForShape(t: Tree, ord: map<string, int>, nm: Naming, c: Column, o: int)
    requires c.qualifier in ord
    ensures Shape(ProcureFor(t, ord, nm, c, o)) == Shape(t)
  {
    var path := FindLCA(t, ord[c.qualifier], o);
    if path.Some? {
      ProcureAtShape(t, path.value, nm, c);
    }
  }

  lemma {:induction false} SetQueryShape(t: Tree, o: int)
    ensures Shape(SetQuery(t, o)) == Shape(t)
  {
    if t.Join? {
      SetQueryShape(t.left, o);
      SetQueryShape(t.right, o);
    }
  }

  // ---------------------------------------------------------------- building the queries

  /** The leaf's query was built from its text as it is, and every foreign column is bound. */
  ghost predicate LeafDone(t: Tree, nm: Naming, o: int) {
    && Leaf(t, o).query == Some(Query(Leaf(t, o).fields, Leaf(t, o).wheres))
    && forall c | Foreign(t, o, c) :: c in Reach(t, nm, o)
  }

  /** The leaves above `k` are done. */
  ghost predicate DoneAbove(t: Tree, nm: Naming, k: int) {
    forall o | o in LeafOrders(t) && o > k :: LeafDone(t, nm, o)
  }

  /** What building the queries keeps. */
  ghost predicate Building(t: Tree, ord: map<string, int>, nm: Naming, k: int) {
    Planned(t, 0, ord) && VarsOk(t, nm) && nm.Apart() && Uses(t) <= nm.used && ord.Keys <= Tables(t) && DoneAbove(t, nm, k)
  }

  lemma ProcureBuilding(t: Tree, ord: map<string, int>, nm: Naming, c: Column, o: int)
    requires Building(t, ord, nm, o) && Wanted(t, 0, ord, nm, c, o)
    ensures Building(ProcureFor(t, ord, nm, c, o), ord, nm, o)
    ensures LeafKept(t, ProcureFor(t, ord, nm, c, o), nm, c, ord[c.qualifier], o)
    ensures Grown(t, ProcureFor(t, ord, nm, c, o)) && ProcureFor(t, ord, nm, c, o).fields == t.fields
  {
    var t' := ProcureFor(t, ord, nm, c, o);
    ProcureForKeeps(t, 0, ord, nm, c, o);
    ProcureForLeaf(t, 0, ord, nm, c, o, o);
    forall p | p in LeafOrders(t') && p > o ensures LeafDone(t', nm, p) {
      ProcureForLeaf(t, 0, ord, nm, c, o, p);
      assert LeafDone(t, nm, p);
    }
  }

  function SetQuery(t: Tree, o: int): (r: Tree) {
    match t
    case Merge(tables, order, fields, wheres, query) =>
      if order == o then Merge(tables, order, fields, wheres, Some(Query(fields, wheres))) else t
    case Join(l, r, _, _, _, _, _, _) => t.(left := SetQuery(l, o), right := SetQuery(r, o))
  }

  lemma {:induction false} SetQuerySame(t: Tree, lo: int, ord: map<string, int>, nm: Naming, o: int)
    requires Planned(t, lo, ord) && VarsOk(t, nm)
    ensures SameButQuery(t, SetQuery(t, o), lo, ord, nm)
  {
    if t.Join? {
      SetQuerySame(t.left, lo, ord, nm, o);
      SetQuerySame(t.right, t.left.order, ord, nm, o);
      ChildStepped(t, SetQuery(t.left, o), SetQuery(t.right, o), lo, ord);
      forall d | d in nm.used && nm.name(d) in t.vars ensures Points(SetQuery(t.left, o), t.vars[nm.name(d)], d) {
        assert Points(t.left, t.vars[nm.name(d)], d);
      }
    }
  }

  predicate SameButQuery(t: Tree, t': Tree, lo: int, ord: map<string, int>, nm: Naming) {
    Planned(t', lo, ord) && Stepped(t, t') && t'.fields == t.fields && VarsOk(t', nm) && Uses(t') == Uses(t)
  }

  lemma {:induction false} SetQueryOrders(t: Tree, o: int)
    ensures LeafOrders(SetQuery(t, o)) == LeafOrders(t)
  {
    if t.Join? {
      SetQueryOrders(t.left, o);
      SetQueryOrders(t.right, o);
    }
  }

  lemma {:induction false} SetQueryLeaf(t: Tree, nm: Naming, o: int, p: int)
    requires p in LeafOrders(t)
    ensures Reach(SetQuery(t, o), nm, p) == Reach(t, nm, p)
    ensures Leaf(SetQuery(t, o), p) == SetQuery(Leaf(t, p), o) && Leaf(t, p).order == p
  {
    if t.Join? {
      SetQueryOrders(t.left, o);
      SetQueryLeaf(if p in LeafOrders(t.left) then t.left else t.right, nm, o, p);
    }
  }

  lemma QueryBuilding(t: Tree, ord: map<string, int>, nm: Naming, o: int)
    requires Building(t, ord, nm, o) && o in LeafOrders(t) && forall c | Foreign(t, o, c) :: c in Reach(t, nm, o)
    ensures Building(SetQuery(t, o), ord, nm, o - 1) && Grown(t, SetQuery(t, o)) && SetQuery(t, o).fields == t.fields
  {
    var t' := SetQuery(t, o);
    SetQuerySame(t, 0, ord, nm, o);
    forall p | p in LeafOrders(t') && p > o - 1 ensures LeafDone(t', nm, p) {
      SetQueryLeaf(t, nm, o, p);
      if p > o {
        assert LeafDone(t, nm, p);
      }
      forall c | Foreign(t', p, c) ensures c in Reach(t', nm, p) {
        assert Foreign(t, p, c);
      }
    }
  }

  /** The columns of a leaf's text, in the order in which the text is written. */
  function TextColumns(fields: seq<Field>): (cs: seq<Column>) {
    if fields == [] then [] else TextColumns(fields[..|fields| - 1]) + Columns(fields[|fields| - 1])
  }

  lemma {:induction false} TextComplete(fields: seq<Field>, c: Column)
    ensures c in TextColumns(fields) <==> exists f | f in fields :: c in Columns(f)
    decreases |fields|
  {
    if fields != [] {
      var n := |fields| - 1;
      TextComplete(fields[..n], c);
      assert fields == fields[..n] + [fields[n]];
    }
  }

  lemma LeafColumn(t: Tree, lo: int, ord: map<string, int>, o: int)
    requires Planned(t, lo, ord) && o in LeafOrders(t)
    ensures Leaf(t, o).order == o && Backward(Leaf(t, o), ord) && Knows(Leaf(t, o), ord)
  {
    if t.Join? {
      LeafColumn(if o in LeafOrders(t.left) then t.left else t.right, if o in LeafOrders(t.left) then lo else t.left.order, ord, o);
    }
  }

  /** A foreign column of a leaf is of a leaf to its left. */
  lemma ForeignWanted(t: Tree, ord: map<string, int>, nm: Naming, c: Column, o: int)
    requires Building(t, ord, nm, o) && o in LeafOrders(t) && Foreign(t, o, c)
    ensures Wanted(t, 0, ord, nm, c, o)
  {
    LeafColumn(t, 0, ord, o);
    LeafUses(t, o);
    assert c.qualifier in ord && ord[c.qualifier] <= o && c.qualifier in Tables(t);
    if ord[c.qualifier] == o {
      LeafOfTable(t, 0, ord, c.qualifier);
    }
  }

  lemma {:induction false} LeafOfTable(t: Tree, lo: int, ord: map<string, int>, x: string)
    requires Planned(t, lo, ord) && x in Tables(t) && x in ord
    ensures ord[x] in LeafOrders(t) && x in Leaf(t, ord[x]).tables
  {
    TableOrder(t, lo, ord, x);
    if t.Join? {
      TableSide(t, lo, ord, x);
      LeafOfTable(if x in Tables(t.left) then t.left else t.right, if x in Tables(t.left) then lo else t.left.order, ord, x);
    }
  }

  /** Builds the query of one leaf: every column of another leaf becomes a variable. */
  method BuildLeaf(t: Tree, ord: map<string, int>, nm: Naming, o: int) returns (t': Tree)
    requires Building(t, ord, nm, o) && o in LeafOrders(t)
    ensures Building(t', ord, nm, o - 1) && Grown(t, t') && t'.fields == t.fields && Shape(t') == Shape(t)
  {
    var m := Leaf(t, o);
    var text := TextColumns(m.fields) + TextColumns(m.wheres);
    t' := t;
    for i := 0 to |text|
      invariant Building(t', ord, nm, o) && Grown(t, t') && t'.fields == t.fields && Leaf(t', o) == m && Shape(t') == Shape(t)
      invariant forall k | 0 <= k < i && text[k].qualifier !in m.tables :: text[k] in Reach(t', nm, o)
    {
      var c := text[i];
      if c.qualifier !in m.tables {
        InText(m, c);
        ForeignWanted(t', ord, nm, c, o);
        ProcureBuilding(t', ord, nm, c, o);
        ProcureForKeeps(t', 0, ord, nm, c, o);
        ProcureForShape(t', ord, nm, c, o);
        t' := ProcureFor(t', ord, nm, c, o);
      }
    }
    forall c | Foreign(t', o, c) ensures c in Reach(t', nm, o) {
      InText(m, c);
    }
    QueryBuilding(t', ord, nm, o);
    SetQueryShape(t', o);
    t' := SetQuery(t', o);
  }

  lemma InText(m: Tree, c: Column)
    requires m.Merge?
    ensures c in Uses(m) <==> c in TextColumns(m.fields) + TextColumns(m.wheres)
  {
    TextComplete(m.fields, c);
    TextComplete(m.wheres, c);
  }

  /** Builds all queries, right sides before left sides: a leaf's text is never changed after its query
      was built from it, and every variable a query uses is bound on the way down to it. */
  method BuildQueries(t: Tree, ord: map<string, int>, nm: Naming) returns (t': Tree)
    requires Planned(t, 0, ord) && VarsOk(t, nm) && nm.Apart() && Uses(t) <= nm.used && ord.Keys <= Tables(t)
    ensures Building(t', ord, nm, 0) && Grown(t, t') && t'.fields == t.fields && Shape(t') == Shape(t)
    ensures forall o | o in LeafOrders(t') :: LeafDone(t', nm, o)
  {
    t' := t;
    var leaves := LeafList(t);
    ListOrders(t, 0);
    OrderBounds(t, 0);
    ghost var k := t.order;
    assert forall j | 0 <= j < |leaves| :: leaves[j] in LeafOrders(t);
    for i := |leaves| downto 0
      invariant Grown(t, t') && t'.fields == t.fields && Shape(t') == Shape(t)
      invariant Building(t', ord, nm, k) && Between(leaves, i, k)
    {
      Lowered(t', ord, nm, leaves, i, k);
      t' := BuildLeaf(t', ord, nm, leaves[i]);
      k := leaves[i] - 1;
    }
    forall o | o in LeafOrders(t') ensures o > 0 && LeafDone(t', nm, o) {
      assert o in leaves;
    }
  }

  /** The leaves from the i-th on lie above `k`, the others do not. */
  predicate Between(leaves: seq<int>, i: int, k: int) {
    0 <= i <= |leaves| && (forall j | 0 <= j < i :: leaves[j] <= k) && (forall j | i <= j < |leaves| :: leaves[j] > k)
  }

  /** No leaf lies between one leaf and the next to its right. */
  lemma Lowered(t: Tree, ord: map<string, int>, nm: Naming, leaves: seq<int>, i: nat, k: int)
    requires Building(t, ord, nm, k) && Increasing(leaves) && i < |leaves| && Between(leaves, i + 1, k)
    requires forall o :: o in LeafOrders(t) <==> o in leaves
    ensures leaves[i] in LeafOrders(t) && Building(t, ord, nm, leaves[i]) && Between(leaves, i, leaves[i] - 1)
  {
    assert leaves[i] in leaves;
    forall o | o in LeafOrders(t) && o > leaves[i] ensures o > k {
      assert o in leaves;
      var j :| 0 <= j < |leaves| && leaves[j] == o;
      assert j > i;
    }
  }
}
