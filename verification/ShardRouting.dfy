/** Choosing the partitions a statement has to go to from its WHERE clause. */
module ShardRouting {
  import opened Text
  import opened Bags
  import opened Values
  import opened HashPartition
  import opened Router
  import opened Predicates

  /** A hash table: its name, its shard key and the column that holds it, the value a literal stands
      for in it, the slot of a key value, and how an expression is evaluated on one of its rows. */
  datatype TableDef = TableDef(
    name: string,
    shardKey: string,
    keyIndex: nat,
    means: Literal -> Known,
    slot: Value -> int,
    interp: Row -> Env)

  function KeyOf(def: TableDef, row: Row): (v: Value) {
    Col(row, def.keyIndex)
  }

  /** Literals and key values have slots of the table, and values that are equal have the same. */
  ghost predicate SlotsFit(h: Hash, def: TableDef) {
    && (forall l | h.hash(l).Some? :: 0 <= h.hash(l).value < h.slots)
    && (forall v: Known :: 0 <= def.slot(v) < h.slots)
    && (forall v, w | SqlEqual(v, w) :: def.slot(v) == def.slot(w))
  }

  /** The shard key read in an expression, with or without the table's name, is the row's key. */
  ghost predicate ReadsKey(def: TableDef) {
    && (forall row, l: Literal :: def.interp(row).literal(l) == def.means(l))
    && forall row ::
      && def.interp(row).column("", Fold(def.shardKey)) == KeyOf(def, row)
      && def.interp(row).column(def.name, Fold(def.shardKey)) == KeyOf(def, row)
  }

  /** A table that is built, whose partitions lie within its slots and have different names. */
  ghost predicate Ready(h: Hash, def: TableDef)
    reads h
  {
    && h.Built() && SlotsFit(h, def) && ReadsKey(def)
    && (forall k | 0 <= k < |h.conf| :: Parsed(h.conf)[k].end <= h.slots)
    && (forall i, j | 0 <= i < j < |h.conf| :: h.conf[i].table != h.conf[j].table)
  }

  /** The row has a key. */
  predicate Keyed(def: TableDef, row: Row) {
    KeyOf(def, row).Val?
  }

  function SegmentAt(h: Hash, slot: int): (s: Segment)
    reads h
  {
    if slot in h.partitions then h.partitions[slot] else NoSegment
  }

  /** The partition of a key value. */
  function HomeOf(h: Hash, def: TableDef, v: Value): (s: Segment)
    reads h
  {
    SegmentAt(h, def.slot(v))
  }

  /** The partition a row belongs to. */
  function Home(h: Hash, def: TableDef, row: Row): (s: Segment)
    reads h
  {
    HomeOf(h, def, KeyOf(def, row))
  }

  /** The literal is written so that it hashes into the partition of the value it stands for. */
  predicate Spelled(h: Hash, def: TableDef, l: Literal)
    reads h
  {
    h.hash(l).Some? ==> SegmentAt(h, h.hash(l).value) == HomeOf(h, def, def.means(l))
  }

  predicate NameMatch(e: Expr, table: string, shardKey: string) {
    e.ColName? && (e.col.qualifier == "" || e.col.qualifier == table) && Fold(e.col.name) == Fold(shardKey)
  }

  lemma SegmentsAreParsed(h: Hash, s: Segment)
    requires h.Built()
    ensures s in h.segments <==> s in Parsed(h.conf)
  {
    assert s in h.segments <==> s in multiset(h.segments);
    assert s in Parsed(h.conf) <==> s in multiset(Parsed(h.conf));
  }

  lemma SlotHasSegment(h: Hash, def: TableDef, slot: int)
    requires Ready(h, def) && 0 <= slot < h.slots
    ensures SegmentAt(h, slot) in h.segments && Covers(SegmentAt(h, slot), slot)
  {
    EverySlotCovered(h.conf, h.slots);
    SlotMapCovers(Parsed(h.conf), slot);
    SegmentsAreParsed(h, SegmentAt(h, slot));
  }

  /** Every row with a key has a home among the table's segments. */
  lemma HomeExists(h: Hash, def: TableDef, row: Row)
    requires Ready(h, def) && Keyed(def, row)
    ensures Home(h, def, row) in h.segments && Covers(Home(h, def, row), def.slot(KeyOf(def, row)))
  {
    var v: Known := KeyOf(def, row);
    SlotHasSegment(h, def, def.slot(v));
  }

  /** Segments of the table, none of them twice. */
  ghost predicate InTable(h: Hash, segs: seq<Segment>)
    reads h
  {
    (forall s | s in segs :: s in h.segments) && DistinctRanges(segs)
  }

  /** The segments hold every row for which the condition is TRUE. */
  ghost predicate Reaches(h: Hash, def: TableDef, where: Option<Expr>, segs: seq<Segment>)
    reads h
  {
    && InTable(h, segs)
    && (forall row | Keyed(def, row) && (where.None? || Eval(where.value, def.interp(row)) == True) :: Home(h, def, row) in segs)
  }

  lemma BuiltDistinct(h: Hash)
    requires h.Built()
    ensures DistinctRanges(h.segments) && Disjoint(Parsed(h.conf)) && NonEmpty(Parsed(h.conf))
  {
    var segs := Parsed(h.conf);
    forall k | 0 <= k < |segs| ensures segs[k].start < segs[k].end {
      ParsedFromZero(h.conf[k]);
    }
    forall i, j | 0 <= i < j < |h.segments|
      ensures h.segments[i].start != h.segments[j].start || h.segments[i].end != h.segments[j].end
    {
      if h.segments[i].start == h.segments[j].start && h.segments[i].end == h.segments[j].end {
        SegmentsAreParsed(h, h.segments[i]);
        SegmentsAreParsed(h, h.segments[j]);
        SameRangeSameSegment(segs, h.segments[i], h.segments[j]);
        TwiceInBag(h.segments, i, j);
        OnceInParsed(segs, h.segments[i]);
      }
    }
  }

  lemma {:induction false} OnceInParsed(segs: seq<Segment>, x: Segment)
    requires Disjoint(segs) && NonEmpty(segs)
    ensures multiset(segs)[x] <= 1
    decreases |segs|
  {
    if segs != [] {
      var n := |segs| - 1;
      OnceInParsed(segs[..n], x);
      assert segs == segs[..n] + [segs[n]];
      assert forall k | 0 <= k < n :: Apart(segs[k], segs[n]) && segs[k] != segs[n];
    }
  }

  lemma AllReach(h: Hash, def: TableDef, where: Option<Expr>)
    requires Ready(h, def)
    ensures Reaches(h, def, where, h.segments)
  {
    BuiltDistinct(h);
    forall row | Keyed(def, row) ensures Home(h, def, row) in h.segments {
      HomeExists(h, def, row);
    }
  }

  lemma {:induction false} ConjunctTrue(filters: seq<Expr>, i: nat, env: Env)
    requires i < |filters| && AllTrue(filters, env) == True
    ensures Eval(filters[i], env) == True
    decreases |filters|
  {
    if i < |filters| - 1 {
      ConjunctTrue(filters[..|filters| - 1], i, env);
    }
  }

  ghost predicate Implies(where: Expr, filter: Expr) {
    forall env | Eval(where, env) == True :: Eval(filter, env) == True
  }

  /** The conditions of a WHERE clause, in order. */
  function Conditions(where: Expr): (fs: seq<Expr>) {
    var parts := SplitAndExpression([], where);
    seq(|parts|, i requires 0 <= i < |parts| => SkipParenthesis(parts[i]))
  }

  /** A condition of a conjunction, unparenthesised, is TRUE wherever the conjunction is. */
  lemma ConditionImplied(where: Expr, i: nat)
    requires i < |Conditions(where)|
    ensures Implies(where, Conditions(where)[i])
  {
    forall env | Eval(where, env) == True ensures Eval(Conditions(where)[i], env) == True {
      SplitMeaning([], where, env);
      ConjunctTrue(SplitAndExpression([], where), i, env);
      SkipMeaning(SplitAndExpression([], where)[i], env);
    }
  }

  lemma {:induction false} InTrue(v: Value, vals: seq<Value>) returns (j: nat)
    requires In(v, vals) == True
    ensures j < |vals| && SqlEqual(v, vals[j])
  {
    var n := |vals| - 1;
    if Equal(v, vals[n]) == True {
      j := n;
    } else {
      j := InTrue(v, vals[..n]);
    }
  }

  // ---------------------------------------------------------------- the keys a condition lists

  /** The condition compares the shard key with the literal. */
  ghost predicate KeyLists(def: TableDef, e: Expr, l: Literal) {
    exists c :: NameMatch(ColName(c), def.name, def.shardKey) && Lists(e, c, l)
  }

  ghost predicate KeyListed(def: TableDef, e: Expr, row: Row) {
    exists l :: KeyLists(def, e, l) && SqlEqual(def.means(l), KeyOf(def, row))
  }

  /** Each key the condition lists has its home among the segments. */
  ghost predicate KeysWithin(h: Hash, def: TableDef, e: Expr, segs: seq<Segment>)
    reads h
  {
    forall l | KeyLists(def, e, l) :: HomeOf(h, def, def.means(l)) in segs
  }

  /** Each key the condition lists is written so that it hashes into the partition of its value. */
  ghost predicate KeysSpelled(h: Hash, def: TableDef, e: Expr)
    reads h
  {
    forall l | KeyLists(def, e, l) :: Spelled(h, def, l)
  }

  function RowWithKey(def: TableDef, v: Value): (row: Row)
    ensures KeyOf(def, row) == v
  {
    seq(def.keyIndex + 1, _ => v)
  }

  /** A row with a listed key meets the condition, whatever else is in it. */
  lemma ListedRowMeets(def: TableDef, e: Expr, l: Literal, row: Row)
    requires ReadsKey(def) && KeyLists(def, e, l) && SqlEqual(KeyOf(def, row), def.means(l))
    ensures Eval(e, def.interp(row)) == True
  {
    var c :| NameMatch(ColName(c), def.name, def.shardKey) && Lists(e, c, l);
    assert def.interp(row).literal(l) == def.means(l);
    ListedMeets(e, c, l, def.interp(row));
  }

  predicate AllLiterals(vals: seq<Expr>) {
    forall k | 0 <= k < |vals| :: vals[k].SQLVal?
  }

  predicate KeyComparison(def: TableDef, e: Expr) {
    && e.ComparisonExpr? && NameMatch(e.left, def.name, def.shardKey)
    && ((e.op == EqualOp && e.right.SQLVal?) || (e.op == InOp && e.right.ValTuple? && e.right.vals != [] && AllLiterals(e.right.vals)))
  }

  /** The literals of a comparison with the shard key are those it lists. */
  lemma ComparisonLists(def: TableDef, e: Expr, l: Literal)
    requires e.ComparisonExpr? && NameMatch(e.left, def.name, def.shardKey)
    ensures e.op == EqualOp && e.right.SQLVal? ==> (KeyLists(def, e, l) <==> e.right.val == l)
    ensures e.op == InOp && e.right.ValTuple? ==> (KeyLists(def, e, l) <==> SQLVal(l) in e.right.vals)
  {
    assert e.left == ColName(e.left.col) && SameColumn(e.left.col, e.left.col);
    assert Lists(e, e.left.col, l) ==> KeyLists(def, e, l);
  }

  lemma EqualListsKey(def: TableDef, e: Expr, row: Row)
    requires ReadsKey(def) && KeyComparison(def, e) && e.op == EqualOp && Eval(e, def.interp(row)) == True
    ensures KeyListed(def, e, row)
  {
    ComparisonLists(def, e, e.right.val);
    assert Scalar(e.left, def.interp(row)) == KeyOf(def, row);
    assert def.interp(row).literal(e.right.val) == def.means(e.right.val);
  }

  lemma InListsKey(def: TableDef, e: Expr, row: Row)
    requires ReadsKey(def) && KeyComparison(def, e) && e.op == InOp && Eval(e, def.interp(row)) == True
    ensures KeyListed(def, e, row)
  {
    var env, vals := def.interp(row), e.right.vals;
    ScalarsAt(vals, env, 0);
    assert Scalar(e.left, env) == KeyOf(def, row);
    var k := InTrue(KeyOf(def, row), Scalars(vals, env));
    ScalarsAt(vals, env, k);
    ComparisonLists(def, e, vals[k].val);
    assert vals[k] in vals && env.literal(vals[k].val) == def.means(vals[k].val);
  }

  lemma SameKeyLists(def: TableDef, e: Expr, e': Expr, l: Literal)
    requires SameListed(e, e')
    ensures KeyLists(def, e, l) <==> KeyLists(def, e', l)
  {
    if KeyLists(def, e, l) {
      var c :| NameMatch(ColName(c), def.name, def.shardKey) && Lists(e, c, l);
      assert Lists(e', c, l);
    }
    if KeyLists(def, e', l) {
      var c :| NameMatch(ColName(c), def.name, def.shardKey) && Lists(e', c, l);
      assert Lists(e, c, l);
    }
  }

  /** A comparison of the shard key with literals, however it was written. */
  ghost predicate ConvertsTo(filter: Expr, comparison: Expr) {
    SameMeaning(comparison, filter) && SameListed(comparison, filter)
  }

  /** A row for which the condition is TRUE has one of the listed keys. */
  lemma MetByListed(def: TableDef, filter: Expr, comparison: Expr, row: Row)
    requires ReadsKey(def) && ConvertsTo(filter, comparison) && KeyComparison(def, comparison)
    requires Eval(filter, def.interp(row)) == True
    ensures KeyListed(def, filter, row)
  {
    assert Eval(comparison, def.interp(row)) == True;
    if comparison.op == EqualOp {
      EqualListsKey(def, comparison, row);
    } else {
      InListsKey(def, comparison, row);
    }
    var l :| KeyLists(def, comparison, l) && SqlEqual(def.means(l), KeyOf(def, row));
    SameKeyLists(def, comparison, filter, l);
  }

  // ---------------------------------------------------------------- no partition left out

  /** Segments with the homes of all listed keys hold every row the clause is TRUE for. */
  lemma WithinReaches(h: Hash, def: TableDef, where: Expr, filter: Expr, comparison: Expr, segs: seq<Segment>)
    requires Ready(h, def) && Implies(where, filter) && ConvertsTo(filter, comparison) && KeyComparison(def, comparison)
    requires InTable(h, segs) && KeysWithin(h, def, filter, segs)
    ensures Reaches(h, def, Some(where), segs)
  {
    forall row | Keyed(def, row) && Eval(where, def.interp(row)) == True ensures Home(h, def, row) in segs {
      MetByListed(def, filter, comparison, row);
      var l :| KeyLists(def, filter, l) && SqlEqual(def.means(l), KeyOf(def, row));
      assert def.slot(def.means(l)) == def.slot(KeyOf(def, row));
    }
  }

  /** Segments that hold every row the condition is TRUE for have the homes of all listed keys. */
  lemma ReachesWithin(h: Hash, def: TableDef, where: Expr, filter: Expr, segs: seq<Segment>)
    requires Ready(h, def) && Implies(filter, where) && Reaches(h, def, Some(where), segs)
    ensures KeysWithin(h, def, filter, segs)
  {
    forall l | KeyLists(def, filter, l) ensures HomeOf(h, def, def.means(l)) in segs {
      var row := RowWithKey(def, def.means(l));
      ListedRowMeets(def, filter, l, row);
      assert Keyed(def, row) && Eval(where, def.interp(row)) == True;
      assert Home(h, def, row) == HomeOf(h, def, def.means(l));
    }
  }

  /** `shardkey = literal`: the one partition of the literal holds every row of that key if and only if
      the literal hashes into the partition of the value it stands for. */
  lemma PointReaches(h: Hash, def: TableDef, where: Expr, v: Literal)
    requires Ready(h, def) && KeyComparison(def, where) && where.op == EqualOp && where.right == SQLVal(v) && h.hash(v).Some?
    ensures h.Lookup(Some(v), Some(v)) == Some([SegmentAt(h, h.hash(v).value)])
    ensures Reaches(h, def, Some(where), [SegmentAt(h, h.hash(v).value)]) <==> Spelled(h, def, v)
  {
    var s := SegmentAt(h, h.hash(v).value);
    SlotHasSegment(h, def, h.hash(v).value);
    ComparisonLists(def, where, v);
    if Reaches(h, def, Some(where), [s]) {
      ReachesWithin(h, def, where, where, [s]);
      assert HomeOf(h, def, def.means(v)) in [s];
    }
    if Spelled(h, def, v) {
      forall l | KeyLists(def, where, l) ensures HomeOf(h, def, def.means(l)) in [s] {
        ComparisonLists(def, where, l);
      }
      WithinReaches(h, def, where, where, where, [s]);
    }
  }

  /** The segments of some slots are segments of the table: those that hold one of the slots. */
  ghost predicate OfSlots(h: Hash, idxs: seq<int>, segs: seq<Segment>)
    reads h
  {
    && InTable(h, segs)
    && (forall k {:trigger SegmentAt(h, idxs[k])} | 0 <= k < |idxs| :: SegmentAt(h, idxs[k]) in segs)
    && (forall s | s in segs :: exists k | 0 <= k < |idxs| :: Covers(s, idxs[k]))
  }

  lemma SlotsInTable(h: Hash, def: TableDef, idxs: seq<int>)
    requires Ready(h, def) && idxs != [] && forall k | 0 <= k < |idxs| :: 0 <= idxs[k] < h.slots
    ensures OfSlots(h, idxs, Firsts(BySlot(h.partitions, idxs)))
  {
    BuiltDistinct(h);
    var parsed, found := Parsed(h.conf), Firsts(BySlot(h.partitions, idxs));
    EverySlotCovered(h.conf, h.slots);
    SegmentsOfSlots(parsed, idxs, NoSegment);
    forall s | s in found ensures s in h.segments && exists k | 0 <= k < |idxs| :: Covers(s, idxs[k]) {
      SegmentsOfSlots(parsed, idxs, s);
      SegmentsAreParsed(h, s);
    }
    forall k | 0 <= k < |idxs| ensures SegmentAt(h, idxs[k]) in found {
      SlotHasSegment(h, def, idxs[k]);
      SegmentsAreParsed(h, SegmentAt(h, idxs[k]));
      SegmentsOfSlots(parsed, idxs, SegmentAt(h, idxs[k]));
    }
  }

  /** The slots of a list of literals: an error when one cannot be hashed; no slots when an element
      is not a literal. */
  method IndexesOf(h: Hash, vals: seq<Expr>) returns (err: bool, literal: bool, idxs: seq<int>)
    ensures !err && literal ==> |idxs| == |vals|
    ensures !err && literal ==> forall k | 0 <= k < |vals| :: vals[k].SQLVal? && h.hash(vals[k].val) == Some(idxs[k])
    ensures !err && !literal ==> !AllLiterals(vals)
    ensures err ==> exists k | 0 <= k < |vals| :: vals[k].SQLVal? && h.hash(vals[k].val).None?
  {
    idxs := [];
    for k := 0 to |vals|
      invariant |idxs| == k
      invariant forall j | 0 <= j < k :: vals[j].SQLVal? && h.hash(vals[j].val) == Some(idxs[j])
    {
      if !vals[k].SQLVal? {
        return false, false, [];
      }
      var idx := h.GetIndex(vals[k].val);
      if idx.None? {
        return true, true, [];
      }
      idxs := idxs + [idx.value];
    }
    return false, true, idxs;
  }

  // ---------------------------------------------------------------- no partition more than needed

  /** The segment holds the slot of a key that the condition lists. */
  ghost predicate Needed(h: Hash, def: TableDef, filter: Expr, s: Segment)
    reads h
  {
    s in h.segments && exists l :: NeededFor(h, def, filter, s, l)
  }

  ghost predicate NeededFor(h: Hash, def: TableDef, filter: Expr, s: Segment, l: Literal) {
    KeyLists(def, filter, l) && h.hash(l).Some? && Covers(s, h.hash(l).value)
  }

  /** A key that the condition lists cannot be hashed. */
  ghost predicate Unroutable(h: Hash, def: TableDef, filter: Expr) {
    exists l :: KeyLists(def, filter, l) && h.hash(l).None?
  }

  /** The condition lists the keys it is about: an equality, an IN list, or an OR of equalities. */
  ghost predicate Selective(def: TableDef, e: Expr) {
    KeyComparison(def, e) || (e.OrExpr? && exists c :: NameMatch(ColName(c), def.name, def.shardKey) && OnlyEqualities(e, c))
  }

  /** The condition is not a comparison of the shard key, and not an OR. */
  predicate Unrelated(def: TableDef, e: Expr) {
    !e.OrExpr? && !(e.ComparisonExpr? && NameMatch(e.left, def.name, def.shardKey))
  }

  lemma SelectiveConverted(def: TableDef, filter: Expr, converted: Expr)
    requires Selective(def, filter)
    requires !filter.OrExpr? ==> converted == filter
    requires forall c :: filter.OrExpr? && OnlyEqualities(filter, c) ==> IsInOn(converted, c)
    ensures KeyComparison(def, converted)
  {
  }

  // ---------------------------------------------------------------- the lookup

  /** What one condition of the WHERE clause says about where to go: nothing, an error, or segments. */
  datatype Routing = NoHelp | RoutingError | Go(segs: seq<Segment>)

  /** The segments are exactly those of the keys the condition lists. */
  ghost predicate ByListed(h: Hash, def: TableDef, filter: Expr, segs: seq<Segment>)
    reads h
  {
    forall s :: s in segs <==> Needed(h, def, filter, s)
  }

  /** Each key the condition lists has its value's partition among those the listed keys hash into. */
  ghost predicate KeysFound(h: Hash, def: TableDef, filter: Expr)
    reads h
  {
    forall l | KeyLists(def, filter, l) :: Needed(h, def, filter, HomeOf(h, def, def.means(l)))
  }

  /** The segments are in the table. They hold every row the clause is TRUE for when they have the
      homes of the listed keys, and they have these when the keys are spelled for it. */
  ghost predicate Sound(h: Hash, def: TableDef, where: Expr, filter: Expr, segs: seq<Segment>)
    reads h
  {
    && InTable(h, segs)
    && (KeysWithin(h, def, filter, segs) ==> Reaches(h, def, Some(where), segs))
    && (KeysSpelled(h, def, filter) ==> KeysWithin(h, def, filter, segs))
  }

  predicate HashesInto(h: Hash, l: Literal, segs: seq<Segment>)
    reads h
  {
    h.hash(l).Some? && SegmentAt(h, h.hash(l).value) in segs
  }

  /** Every listed key hashes into one of the segments, and each segment has a listed key. */
  ghost predicate ListedInto(h: Hash, def: TableDef, e: Expr, segs: seq<Segment>)
    reads h
  {
    && (forall l | KeyLists(def, e, l) :: HashesInto(h, l, segs))
    && (forall s | s in segs :: Needed(h, def, e, s))
  }

  lemma SameListedInto(h: Hash, def: TableDef, e: Expr, e': Expr, segs: seq<Segment>)
    requires SameListed(e, e') && ListedInto(h, def, e, segs)
    ensures ListedInto(h, def, e', segs)
  {
    forall l | KeyLists(def, e', l) ensures HashesInto(h, l, segs) {
      SameKeyLists(def, e, e', l);
    }
    forall s | s in segs ensures Needed(h, def, e', s) {
      assert Needed(h, def, e, s);
      var l :| NeededFor(h, def, e, s, l);
      SameKeyLists(def, e, e', l);
      assert NeededFor(h, def, e', s, l);
    }
  }

  lemma SpelledWithin(h: Hash, def: TableDef, e: Expr, segs: seq<Segment>)
    requires ListedInto(h, def, e, segs) && KeysSpelled(h, def, e)
    ensures KeysWithin(h, def, e, segs)
  {
    forall l | KeyLists(def, e, l) ensures HomeOf(h, def, def.means(l)) in segs {
      assert HashesInto(h, l, segs) && Spelled(h, def, l);
    }
  }

  lemma IntoByListed(h: Hash, def: TableDef, e: Expr, segs: seq<Segment>)
    requires Ready(h, def) && ListedInto(h, def, e, segs)
    ensures ByListed(h, def, e, segs)
  {
    forall s | Needed(h, def, e, s) ensures s in segs {
      var l :| NeededFor(h, def, e, s, l);
      assert HashesInto(h, l, segs);
      CoverIsSegment(h, def, s, h.hash(l).value);
    }
  }

  /** Going to the segments of the listed literals. */
  lemma ListedRoute(h: Hash, def: TableDef, where: Expr, filter: Expr, comparison: Expr, segs: seq<Segment>)
    requires Ready(h, def) && Implies(where, filter) && ConvertsTo(filter, comparison) && KeyComparison(def, comparison)
    requires InTable(h, segs) && ListedInto(h, def, comparison, segs)
    ensures Sound(h, def, where, filter, segs) && ByListed(h, def, filter, segs)
  {
    SameListedInto(h, def, comparison, filter, segs);
    IntoByListed(h, def, filter, segs);
    if KeysSpelled(h, def, filter) {
      SpelledWithin(h, def, filter, segs);
    }
    if KeysWithin(h, def, filter, segs) {
      WithinReaches(h, def, where, filter, comparison, segs);
    }
  }

  lemma CoverIsSegment(h: Hash, def: TableDef, s: Segment, slot: int)
    requires Ready(h, def) && 0 <= slot < h.slots && s in h.segments && Covers(s, slot)
    ensures s == SegmentAt(h, slot)
  {
    BuiltDistinct(h);
    SegmentsAreParsed(h, s);
    var k :| 0 <= k < |h.conf| && Parsed(h.conf)[k] == s;
    SlotMapUnique(Parsed(h.conf), k, slot);
  }

  lemma AllSound(h: Hash, def: TableDef, where: Expr, filter: Expr)
    requires Ready(h, def)
    ensures Sound(h, def, where, filter, h.segments) && KeysWithin(h, def, filter, h.segments)
  {
    AllReach(h, def, Some(where));
    forall l | KeyLists(def, filter, l) ensures HomeOf(h, def, def.means(l)) in h.segments {
      SlotHasSegment(h, def, def.slot(def.means(l)));
    }
  }

  method RouteByEqual(h: Hash, def: TableDef, where: Expr, filter: Expr, comparison: Expr) returns (r: Routing)
    requires Ready(h, def) && KeyComparison(def, comparison) && comparison.op == EqualOp
    requires ConvertsTo(filter, comparison) && Implies(where, filter)
    ensures !r.NoHelp?
    ensures r.RoutingError? ==> Unroutable(h, def, filter)
    ensures r.Go? ==> Sound(h, def, where, filter, r.segs) && ByListed(h, def, filter, r.segs)
  {
    var v := comparison.right.val;
    var segs := h.Lookup(Some(v), Some(v));
    ComparisonLists(def, comparison, v);
    if segs.None? {
      SameKeyLists(def, comparison, filter, v);
      return RoutingError;
    }
    SlotHasSegment(h, def, h.hash(v).value);
    forall l | KeyLists(def, comparison, l) ensures HashesInto(h, l, segs.value) {
      ComparisonLists(def, comparison, l);
    }
    assert segs.value == [SegmentAt(h, h.hash(v).value)];
    assert NeededFor(h, def, comparison, segs.value[0], v);
    ListedRoute(h, def, where, filter, comparison, segs.value);
    return Go(segs.value);
  }

  lemma InInto(h: Hash, def: TableDef, e: Expr, idxs: seq<int>, segs: seq<Segment>)
    requires KeyComparison(def, e) && e.op == InOp && |idxs| == |e.right.vals| && OfSlots(h, idxs, segs)
    requires forall k | 0 <= k < |idxs| :: h.hash(e.right.vals[k].val) == Some(idxs[k])
    ensures ListedInto(h, def, e, segs)
  {
    forall l | KeyLists(def, e, l) ensures HashesInto(h, l, segs) {
      InHashes(h, def, e, idxs, l, segs);
    }
    forall s | s in segs ensures Needed(h, def, e, s) {
      var k :| 0 <= k < |idxs| && Covers(s, idxs[k]);
      InNeeded(h, def, e, idxs, k, s);
    }
  }

  lemma InHashes(h: Hash, def: TableDef, e: Expr, idxs: seq<int>, l: Literal, segs: seq<Segment>)
    requires KeyComparison(def, e) && e.op == InOp && |idxs| == |e.right.vals| && KeyLists(def, e, l)
    requires OfSlots(h, idxs, segs) && forall k | 0 <= k < |idxs| :: h.hash(e.right.vals[k].val) == Some(idxs[k])
    ensures HashesInto(h, l, segs)
  {
    ComparisonLists(def, e, l);
    var k :| 0 <= k < |e.right.vals| && e.right.vals[k] == SQLVal(l);
    assert h.hash(e.right.vals[k].val) == Some(idxs[k]);
  }

  lemma InNeeded(h: Hash, def: TableDef, e: Expr, idxs: seq<int>, k: nat, s: Segment)
    requires KeyComparison(def, e) && e.op == InOp && k < |idxs| == |e.right.vals|
    requires h.hash(e.right.vals[k].val) == Some(idxs[k]) && s in h.segments && Covers(s, idxs[k])
    ensures Needed(h, def, e, s)
  {
    var l := e.right.vals[k].val;
    ComparisonLists(def, e, l);
    assert e.right.vals[k] == SQLVal(l) && e.right.vals[k] in e.right.vals;
    assert NeededFor(h, def, e, s, l);
  }

  method RouteByIn(h: Hash, def: TableDef, where: Expr, filter: Expr, comparison: Expr) returns (r: Routing)
    requires Ready(h, def) && comparison.ComparisonExpr? && comparison.op == InOp && comparison.right.ValTuple?
    requires NameMatch(comparison.left, def.name, def.shardKey) && ConvertsTo(filter, comparison)
    requires Implies(where, filter)
    ensures !r.NoHelp?
    ensures r.RoutingError? ==> Unroutable(h, def, filter)
    ensures r.Go? ==> Sound(h, def, where, filter, r.segs)
    ensures r.Go? && KeyComparison(def, comparison) ==> ByListed(h, def, filter, r.segs)
  {
    var vals := comparison.right.vals;
    var err, literal, idxs := IndexesOf(h, vals);
    if err {
      ghost var k :| 0 <= k < |vals| && vals[k].SQLVal? && h.hash(vals[k].val).None?;
      assert vals[k] == SQLVal(vals[k].val) && vals[k] in vals;
      ComparisonLists(def, comparison, vals[k].val);
      SameKeyLists(def, comparison, filter, vals[k].val);
      return RoutingError;
    }
    AllSound(h, def, where, filter);
    if !literal {
      return Go(h.segments);
    }
    assert forall k | 0 <= k < |idxs| :: h.hash(vals[k].val).Some? && 0 <= idxs[k] < h.slots;
    var segs := GetSegments(h, idxs);
    if |vals| > 0 {
      SlotsInTable(h, def, idxs);
      InInto(h, def, comparison, idxs, segs.value);
      ListedRoute(h, def, where, filter, comparison, segs.value);
    }
    return Go(segs.value);
  }

  /** One condition of the WHERE clause. A condition that lists its keys leads to the partitions these
      hash into, and to no others. */
  method RouteByFilter(h: Hash, def: TableDef, where: Expr, filter: Expr) returns (r: Routing)
    requires Ready(h, def)
    requires Implies(where, filter)
    ensures r.Go? ==> Sound(h, def, where, filter, r.segs)
    ensures r.RoutingError? ==> Unroutable(h, def, filter)
    ensures Unrelated(def, filter) ==> r.NoHelp?
    ensures Selective(def, filter) ==> !r.NoHelp?
    ensures Selective(def, filter) && r.Go? ==> ByListed(h, def, filter, r.segs)
  {
    var comparison := ConvertOrToIn(filter);
    if Selective(def, filter) {
      SelectiveConverted(def, filter, comparison);
    }
    if !comparison.ComparisonExpr? || !NameMatch(comparison.left, def.name, def.shardKey) {
      return NoHelp;
    }
    if comparison.op == EqualOp && comparison.right.SQLVal? {
      r := RouteByEqual(h, def, where, filter, comparison);
    } else if comparison.op == InOp && comparison.right.ValTuple? {
      r := RouteByIn(h, def, where, filter, comparison);
    } else {
      r := NoHelp;
    }
  }

  /** The i-th condition is the first that can decide, and it lists its keys. */
  ghost predicate Decides(def: TableDef, where: Expr, i: int) {
    && 0 <= i < |Conditions(where)| && Selective(def, Conditions(where)[i])
    && forall j | 0 <= j < i :: Unrelated(def, Conditions(where)[j])
  }

  /** The segments are those of the keys the deciding condition lists, if there is one. */
  ghost predicate NoneSpare(h: Hash, def: TableDef, where: Expr, segs: seq<Segment>)
    reads h
  {
    forall i | Decides(def, where, i) :: ByListed(h, def, Conditions(where)[i], segs)
  }

  /** Some condition lists a key that cannot be hashed. */
  ghost predicate CannotRoute(h: Hash, def: TableDef, where: Option<Expr>) {
    where.Some? && exists i | 0 <= i < |Conditions(where.value)| :: Unroutable(h, def, Conditions(where.value)[i])
  }

  /** Every key that a condition of the clause lists hashes into the partition of its value. */
  ghost predicate WhereSpelled(h: Hash, def: TableDef, where: Option<Expr>)
    reads h
  {
    where.Some? ==> forall i | 0 <= i < |Conditions(where.value)| :: KeysSpelled(h, def, Conditions(where.value)[i])
  }

  /** The clause is a single condition, and that lists its keys. */
  ghost predicate OnlyKeys(def: TableDef, where: Expr) {
    |Conditions(where)| == 1 && Selective(def, Conditions(where)[0])
  }

  lemma FirstDecides(h: Hash, def: TableDef, where: Expr, n: nat, segs: seq<Segment>)
    requires n < |Conditions(where)| && !Unrelated(def, Conditions(where)[n])
    requires forall j | 0 <= j < n :: !Selective(def, Conditions(where)[j])
    requires Selective(def, Conditions(where)[n]) ==> ByListed(h, def, Conditions(where)[n], segs)
    ensures NoneSpare(h, def, where, segs)
  {
    forall i | Decides(def, where, i) ensures ByListed(h, def, Conditions(where)[i], segs) {
      assert i == n;
    }
  }

  /** A single condition is TRUE nowhere else than the clause is. */
  lemma OnlyCondition(where: Expr)
    requires |Conditions(where)| == 1
    ensures Implies(Conditions(where)[0], where)
  {
    var parts := SplitAndExpression([], where);
    forall env | Eval(Conditions(where)[0], env) == True ensures Eval(where, env) == True {
      SplitMeaning([], where, env);
      SkipMeaning(parts[0], env);
      assert parts == [] + [parts[0]];
      AllTrueAppend([], parts[0], env);
    }
  }

  /** For a clause that only lists keys, the partitions of the listed literals hold every row it is
      TRUE for if and only if each listed value has its partition among them. */
  lemma ExactlyFound(h: Hash, def: TableDef, where: Expr, segs: seq<Segment>)
    requires Ready(h, def) && OnlyKeys(def, where)
    requires Sound(h, def, where, Conditions(where)[0], segs) && ByListed(h, def, Conditions(where)[0], segs)
    ensures Reaches(h, def, Some(where), segs) <==> KeysFound(h, def, Conditions(where)[0])
  {
    var filter := Conditions(where)[0];
    if Reaches(h, def, Some(where), segs) {
      OnlyCondition(where);
      ReachesWithin(h, def, where, filter, segs);
    }
    assert KeysWithin(h, def, filter, segs) <==> KeysFound(h, def, filter);
  }

  lemma Decided(h: Hash, def: TableDef, where: Expr, n: nat, segs: seq<Segment>)
    requires Ready(h, def) && n < |Conditions(where)| && Sound(h, def, where, Conditions(where)[n], segs)
    requires Selective(def, Conditions(where)[n]) ==> ByListed(h, def, Conditions(where)[n], segs)
    ensures WhereSpelled(h, def, Some(where)) ==> Reaches(h, def, Some(where), segs)
    ensures OnlyKeys(def, where) ==> (Reaches(h, def, Some(where), segs) <==> KeysFound(h, def, Conditions(where)[0]))
  {
    if OnlyKeys(def, where) {
      ExactlyFound(h, def, where, segs);
    }
  }

  method RouteByConditions(h: Hash, def: TableDef, where: Expr) returns (r: Routing)
    requires Ready(h, def)
    ensures r.Go? ==> InTable(h, r.segs) && NoneSpare(h, def, where, r.segs)
    ensures r.Go? && WhereSpelled(h, def, Some(where)) ==> Reaches(h, def, Some(where), r.segs)
    ensures r.Go? && OnlyKeys(def, where) ==> (Reaches(h, def, Some(where), r.segs) <==> KeysFound(h, def, Conditions(where)[0]))
    ensures r.NoHelp? ==> forall i :: !Decides(def, where, i)
    ensures r.NoHelp? ==> !OnlyKeys(def, where)
    ensures r.RoutingError? ==> CannotRoute(h, def, Some(where))
  {
    var filters := Conditions(where);
    for i := 0 to |filters|
      invariant forall j | 0 <= j < i :: !Selective(def, filters[j])
    {
      ConditionImplied(where, i);
      r := RouteByFilter(h, def, where, filters[i]);
      if r.Go? {
        FirstDecides(h, def, where, i, r.segs);
        Decided(h, def, where, i, r.segs);
      }
      if !r.NoHelp? {
        return;
      }
    }
    return NoHelp;
  }

  /** The segments a statement goes to: segments of the table, none of them twice. Every row the WHERE
      clause is TRUE for is in one of them when the keys it lists hash into the partitions of their
      values; for a clause that only lists keys the exact condition is `KeysFound`. When a condition that
      lists its keys decides, the segments are exactly those of the listed keys. */
  method LookupFromWhere(h: Hash, def: TableDef, where: Option<Expr>) returns (r: Option<seq<Segment>>)
    requires Ready(h, def)
    ensures r.Some? ==> InTable(h, r.value)
    ensures r.Some? && WhereSpelled(h, def, where) ==> Reaches(h, def, where, r.value)
    ensures where.Some? && def.shardKey != "" && r.Some? && OnlyKeys(def, where.value) ==>
              (Reaches(h, def, where, r.value) <==> KeysFound(h, def, Conditions(where.value)[0]))
    ensures where.Some? && def.shardKey != "" && r.Some? ==> NoneSpare(h, def, where.value, r.value)
    ensures where.None? || def.shardKey == "" ==> r == Some(h.segments)
    ensures r.None? ==> CannotRoute(h, def, where)
  {
    if def.shardKey != "" && where.Some? {
      var route := RouteByConditions(h, def, where.value);
      match route {
        case NoHelp =>
        case RoutingError => return None;
        case Go(segs) => return Some(segs);
      }
    }
    AllReach(h, def, where);
    return h.Lookup(None, None);
  }
}
