/** The names of bind variables: when they tell the columns in use apart, and what happens when they do not. */
module VarNames {
  import opened Text
  import opened Values
  import opened PlanTree
  import opened BindVars
  import opened NestedRun
  import opened JoinExecution
  import Predicates

  /** One name goes on after the table of the other with an underscore, and its column goes on before. */
  ghost predicate Overlaps(c: Column, d: Column) {
    exists x :: Compliant(c.qualifier) == Compliant(d.qualifier) + "_" + x && Compliant(d.name) == x + "_" + Compliant(c.name)
  }

  /** Tables and columns that differ in characters a variable cannot have. */
  predicate AlikeNames(c: Column, d: Column) {
    Compliant(c.qualifier) == Compliant(d.qualifier) && Compliant(c.name) == Compliant(d.name)
  }

  lemma SameSplit(a: string, b: string, a': string, b': string)
    requires a + "_" + b == a' + "_" + b' && |a| == |a'|
    ensures a == a' && b == b'
  {
    assert a == (a + "_" + b)[..|a|] && a' == (a' + "_" + b')[..|a'|];
    assert b == (a + "_" + b)[|a| + 1..] && b' == (a' + "_" + b')[|a'| + 1..];
  }

  lemma LongerSplit(a: string, b: string, a': string, b': string) returns (x: string)
    requires a + "_" + b == a' + "_" + b' && |a| > |a'|
    ensures a == a' + "_" + x && b' == x + "_" + b
  {
    var n, whole := |a'|, a + "_" + b;
    x := a[n + 1..];
    assert a == whole[..|a|] && a' == whole[..n] && whole[n] == '_';
    assert a[..n] == a' && a[n] == '_';
    assert b' == whole[n + 1..] && whole[n + 1..] == a[n + 1..] + "_" + b;
  }

  lemma OverlapClashes(c: Column, d: Column)
    requires Overlaps(c, d)
    ensures JoinVar(c) == JoinVar(d)
  {
    var x :| Compliant(c.qualifier) == Compliant(d.qualifier) + "_" + x && Compliant(d.name) == x + "_" + Compliant(c.name);
    assert JoinVar(c) == Compliant(d.qualifier) + "_" + (x + "_" + Compliant(c.name));
  }

  /** Two columns have one variable name exactly when their names are alike or overlap. */
  lemma ClashExactly(c: Column, d: Column)
    ensures JoinVar(c) == JoinVar(d) <==> AlikeNames(c, d) || Overlaps(c, d) || Overlaps(d, c)
  {
    var a, b, a', b' := Compliant(c.qualifier), Compliant(c.name), Compliant(d.qualifier), Compliant(d.name);
    if JoinVar(c) == JoinVar(d) {
      if |a| == |a'| {
        SameSplit(a, b, a', b');
      } else if |a| > |a'| {
        var x := LongerSplit(a, b, a', b');
      } else {
        var x := LongerSplit(a', b', a, b);
      }
    }
    if Overlaps(c, d) {
      OverlapClashes(c, d);
    }
    if Overlaps(d, c) {
      OverlapClashes(d, c);
    }
  }

  /** The planner's names tell the columns in use apart if and only if no two of them are alike or overlap. */
  lemma ApartExactly(used: set<Column>)
    ensures Naming(JoinVar, used).Apart() <==>
              forall c, d | c in used && d in used && c != d :: !AlikeNames(c, d) && !Overlaps(c, d)
  {
    forall c, d ensures JoinVar(c) == JoinVar(d) <==> AlikeNames(c, d) || Overlaps(c, d) || Overlaps(d, c) {
      ClashExactly(c, d);
    }
  }

  /** A name a variable can have as it is. */
  predicate Regular(s: string) {
    Compliant(s) == s
  }

  lemma NoOverlap(c: Column, d: Column)
    ensures Overlaps(c, d) ==> '_' in Compliant(c.qualifier)
  {
    if Overlaps(c, d) {
      var x :| Compliant(c.qualifier) == Compliant(d.qualifier) + "_" + x;
      assert Compliant(c.qualifier)[|Compliant(d.qualifier)|] == '_';
    }
  }

  /** So they do when the names are regular and no table name has an underscore. */
  lemma NoUnderscoreApart(used: set<Column>)
    requires forall c | c in used :: Regular(c.qualifier) && Regular(c.name) && '_' !in c.qualifier
    ensures Naming(JoinVar, used).Apart()
  {
    forall c, d | c in used && d in used && c != d ensures !AlikeNames(c, d) && !Overlaps(c, d) {
      NoOverlap(c, d);
    }
    ApartExactly(used);
  }

  // ---------------------------------------------------------------- what a clash does

  /** A leaf with the tables of both columns, and to its right a leaf that mentions both. */
  function TwoLeaves(c: Column, d: Column, z: string): (t: Tree)
    ensures t.Join?
  {
    Join(Merge({c.qualifier, d.qualifier}, 1, [], [], None), Merge({z}, 2, [], [ExprField([c, d], 0, false)], None), 3, [], [], map[], true, false)
  }

  /** The plan after the variables of both columns were made, in the order of the text. */
  function Clashed(c: Column, d: Column, z: string): (t: Tree) {
    var nm, ord := Naming(JoinVar, {c, d}), map[c.qualifier := 1, d.qualifier := 1, z := 2];
    ProcureFor(ProcureFor(TwoLeaves(c, d, z), ord, nm, c, 2), ord, nm, d, 2)
  }

  /** The first column has the value 1, everything else is NULL. */
  function OnlyFirst(c: Column): (combo: Combo) {
    Both(One((e: Column) => if Predicates.SameColumn(e, c) then Val(1.0, true, "1") else Null), One(_ => Null))
  }

  lemma ClashedIs(c: Column, d: Column, z: string)
    requires JoinVar(c) == JoinVar(d) && z != c.qualifier && z != d.qualifier
    ensures Clashed(c, d, z)
         == Join(Merge({c.qualifier, d.qualifier}, 1, [ColField(c)], [], None), TwoLeaves(c, d, z).right, 3, [], [], map[JoinVar(c) := 0], true, false)
  {
    var nm, ord := Naming(JoinVar, {c, d}), map[c.qualifier := 1, d.qualifier := 1, z := 2];
    var t := TwoLeaves(c, d, z);
    assert FindLCA(t.left, 1, 2) == Some([]) && FindLCA(t.right, 1, 2) == Some([]);
    var t' := ProcureFor(t, ord, nm, c, 2);
    assert t' == Procure(t, nm, c);
    assert FindLCA(t'.left, 1, 2) == Some([]) && FindLCA(t'.right, 1, 2) == Some([]);
  }

  /** Whenever two columns have one name, there is a plan in which the leaf that mentions both reads, for the
      second, the value of the first. */
  lemma ClashMisbinds(c: Column, d: Column, z: string, eval: Evaluator)
    requires JoinVar(c) == JoinVar(d) && !Predicates.SameColumn(c, d) && z != c.qualifier && z != d.qualifier
    ensures var t, nm, combo := Clashed(c, d, z), Naming(JoinVar, {c, d}), OnlyFirst(c);
      && Fits(t, combo) && Runs(t, combo, 2) && Foreign(t, 2, d)
      && JoinVar(d) in EnvAt(t, nm, eval, map[], combo, 2)
      && EnvAt(t, nm, eval, map[], combo, 2)[JoinVar(d)] == ValueIn(t, combo, c) != ValueIn(t, combo, d)
  {
    ClashedIs(c, d, z);
    var t, nm, combo := Clashed(c, d, z), Naming(JoinVar, {c, d}), OnlyFirst(c);
    UsesOne({z}, 2, ExprField([c, d], 0, false), None);
    assert LeafOrders(t.left) == {1} && Leaf(t, 2) == t.right;
    var lrow := RowOf(t.left, nm, eval, map[], combo.l);
    assert lrow == [Val(1.0, true, "1")];
    assert EnvAt(t, nm, eval, map[], combo, 2) == RightVars(t, map[], lrow);
  }

  /** Column `c` of table `a_b` and column `b_c` of table `a`. */
  lemma NamesClash(eval: Evaluator)
    ensures var c, d := Predicates.Column("a_b", "c"), Predicates.Column("a", "b_c");
      var t, nm, combo := Clashed(c, d, "z"), Naming(JoinVar, {c, d}), OnlyFirst(c);
      && JoinVar(c) == JoinVar(d) && Runs(t, combo, 2) && JoinVar(d) in EnvAt(t, nm, eval, map[], combo, 2)
      && EnvAt(t, nm, eval, map[], combo, 2)[JoinVar(d)] != ValueIn(t, combo, d)
  {
    var c, d := Predicates.Column("a_b", "c"), Predicates.Column("a", "b_c");
    assert Compliant("a_b") == "a_b" && Compliant("c") == "c" && Compliant("a") == "a" && Compliant("b_c") == "b_c";
    assert JoinVar(c) == "a_b_c" == JoinVar(d);
    assert |c.qualifier| != |d.qualifier| && "z"[0] != "a_b"[0] && "z"[0] != "a"[0];
    ClashMisbinds(c, d, "z", eval);
  }
}
