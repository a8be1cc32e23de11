/** A hash table spread over partitions, changed by INSERT, UPDATE and DELETE statements, against the
    one table its users see. */
module ShardedTable {
  import opened Text
  import opened Bags
  import opened Values
  import opened HashPartition
  import opened Router
  import opened Predicates
  import opened ShardRouting
  import opened InsertPlan

  // ---------------------------------------------------------------- statements on one table

  /** What an UPDATE or a DELETE does to the rows its WHERE clause is TRUE for. */
  datatype Change = Rewrite(where: Option<Expr>, u: Row -> Row) | Remove(where: Option<Expr>)

  predicate Hits(def: TableDef, c: Change, r: Row) {
    c.where.None? || Eval(c.where.value, def.interp(r)) == True
  }

  function Effect(def: TableDef, c: Change, r: Row): (rs: seq<Row>) {
    if !Hits(def, c, r) then [r] else if c.Rewrite? then [c.u(r)] else []
  }

  /** The table after the statement. */
  function Apply(def: TableDef, c: Change, rows: seq<Row>): (rs: seq<Row>) {
    if rows == [] then [] else Apply(def, c, rows[..|rows| - 1]) + Effect(def, c, rows[|rows| - 1])
  }

  /** The number of rows the statement affects. */
  function Affected(def: TableDef, c: Change, rows: seq<Row>): (n: nat) {
    if rows == [] then 0 else Affected(def, c, rows[..|rows| - 1]) + if Hits(def, c, rows[|rows| - 1]) then 1 else 0
  }

  lemma {:induction false} ApplyAppend(def: TableDef, c: Change, a: seq<Row>, b: seq<Row>)
    ensures Apply(def, c, a + b) == Apply(def, c, a) + Apply(def, c, b)
    ensures Affected(def, c, a + b) == Affected(def, c, a) + Affected(def, c, b)
    decreases |b|
  {
    if b == [] {
      assert a + b == a;
    } else {
      assert (a + b)[..|a + b| - 1] == a + b[..|b| - 1];
      ApplyAppend(def, c, a, b[..|b| - 1]);
    }
  }

  lemma {:induction false} ApplyElement(def: TableDef, c: Change, rows: seq<Row>, x: Row)
    requires x in Apply(def, c, rows)
    ensures exists r | r in rows :: x in Effect(def, c, r)
    decreases |rows|
  {
    var n := |rows| - 1;
    if x !in Effect(def, c, rows[n]) {
      ApplyElement(def, c, rows[..n], x);
    }
  }

  /** A statement that hits no row changes nothing. */
  lemma {:induction false} NoHits(def: TableDef, c: Change, rows: seq<Row>)
    requires forall r | r in rows :: !Hits(def, c, r)
    ensures Apply(def, c, rows) == rows && Affected(def, c, rows) == 0
    decreases |rows|
  {
    if rows != [] {
      NoHits(def, c, rows[..|rows| - 1]);
      LastApart(rows);
    }
  }

  lemma {:induction false} ApplyWithout(def: TableDef, c: Change, rows: seq<Row>, i: nat)
    requires i < |rows|
    ensures multiset(Apply(def, c, rows)) == multiset(Effect(def, c, rows[i])) + multiset(Apply(def, c, Without(rows, i)))
    ensures Affected(def, c, rows) == (if Hits(def, c, rows[i]) then 1 else 0) + Affected(def, c, Without(rows, i))
  {
    assert rows == (rows[..i] + [rows[i]]) + rows[i + 1..];
    ApplyAppend(def, c, rows[..i] + [rows[i]], rows[i + 1..]);
    ApplyAppend(def, c, rows[..i], [rows[i]]);
    ApplyAppend(def, c, rows[..i], rows[i + 1..]);
    ApplySingle(def, c, rows[i]);
  }

  lemma ApplySingle(def: TableDef, c: Change, r: Row)
    ensures Apply(def, c, [r]) == Effect(def, c, r)
    ensures Affected(def, c, [r]) == if Hits(def, c, r) then 1 else 0
  {
    assert [r][..0] == [];
  }

  /** The order in which a table keeps its rows does not matter. */
  lemma {:induction false} ApplyPermutation(def: TableDef, c: Change, a: seq<Row>, b: seq<Row>)
    requires multiset(a) == multiset(b)
    ensures multiset(Apply(def, c, a)) == multiset(Apply(def, c, b))
    ensures Affected(def, c, a) == Affected(def, c, b)
    decreases |a|
  {
    if a == [] {
      assert |b| == |multiset(b)| == 0;
    } else {
      var i := Counterpart(a, b);
      assert Without(a, 0) == a[1..];
      ApplyPermutation(def, c, a[1..], Without(b, i));
      ApplyWithout(def, c, a, 0);
      ApplyWithout(def, c, b, i);
    }
  }

  // ---------------------------------------------------------------- partitions

  type Parts = map<string, seq<Row>>

  function RowsOf(parts: Parts, table: string): (rows: seq<Row>) {
    if table in parts then parts[table] else []
  }

  /** All rows, partition after partition. */
  function Flat(segs: seq<Segment>, parts: Parts): (rows: seq<Row>) {
    if segs == [] then [] else Flat(segs[..|segs| - 1], parts) + RowsOf(parts, segs[|segs| - 1].table)
  }

  lemma {:induction false} FlatAppend(a: seq<Segment>, b: seq<Segment>, parts: Parts)
    ensures Flat(a + b, parts) == Flat(a, parts) + Flat(b, parts)
    decreases |b|
  {
    if b == [] {
      assert a + b == a;
    } else {
      assert (a + b)[..|a + b| - 1] == a + b[..|b| - 1];
      FlatAppend(a, b[..|b| - 1], parts);
    }
  }

  lemma {:induction false} FlatApply(def: TableDef, c: Change, segs: seq<Segment>, parts: Parts, parts': Parts)
    requires forall s | s in segs :: RowsOf(parts', s.table) == Apply(def, c, RowsOf(parts, s.table))
    ensures Flat(segs, parts') == Apply(def, c, Flat(segs, parts))
    decreases |segs|
  {
    if segs != [] {
      var n := |segs| - 1;
      FlatApply(def, c, segs[..n], parts, parts');
      assert segs[n] in segs;
      ApplyAppend(def, c, Flat(segs[..n], parts), RowsOf(parts, segs[n].table));
    }
  }

  /** Every row is in the partition of its shard key. */
  ghost predicate Placed(h: Hash, def: TableDef, parts: Parts)
    reads h
  {
    forall s, r | s in h.segments && r in RowsOf(parts, s.table) :: AtHome(h, def, s, r)
  }

  predicate AtHome(h: Hash, def: TableDef, s: Segment, r: Row)
    reads h
  {
    Keyed(def, r) && Home(h, def, r) == s
  }

  lemma TablesDiffer(h: Hash, def: TableDef, s: Segment, t: Segment)
    requires Ready(h, def) && s in h.segments && t in h.segments && s.table == t.table
    ensures s == t
  {
    SegmentsAreParsed(h, s);
    SegmentsAreParsed(h, t);
    var i :| 0 <= i < |h.conf| && Parsed(h.conf)[i] == s;
    var j :| 0 <= j < |h.conf| && Parsed(h.conf)[j] == t;
    assert h.conf[i].table == s.table && h.conf[j].table == t.table;
  }

  /** A table with one row. */
  function Lone(h: Hash, def: TableDef, row: Row): (parts: Parts)
    reads h
  {
    map[Home(h, def, row).table := [row]]
  }

  lemma LonePlaced(h: Hash, def: TableDef, row: Row)
    requires Ready(h, def) && Keyed(def, row)
    ensures Placed(h, def, Lone(h, def, row)) && Home(h, def, row) in h.segments
  {
    HomeExists(h, def, row);
    forall s, r | s in h.segments && r in RowsOf(Lone(h, def, row), s.table) ensures AtHome(h, def, s, r) {
      TablesDiffer(h, def, s, Home(h, def, row));
    }
  }

  predicate DistinctTables(segs: seq<Segment>) {
    forall i, j | 0 <= i < j < |segs| :: segs[i].table != segs[j].table
  }

  lemma ReadyDistinct(h: Hash, def: TableDef)
    requires Ready(h, def)
    ensures DistinctTables(h.segments)
  {
    BuiltDistinct(h);
    forall i, j | 0 <= i < j < |h.segments| ensures h.segments[i].table != h.segments[j].table {
      if h.segments[i].table == h.segments[j].table {
        TablesDiffer(h, def, h.segments[i], h.segments[j]);
      }
    }
  }

  // ---------------------------------------------------------------- UPDATE and DELETE

  /** The statement was run on the given segments, and on no others. */
  ghost predicate RanOn(h: Hash, def: TableDef, c: Change, segs: seq<Segment>, parts: Parts, parts': Parts)
    reads h
  {
    forall s | s in h.segments ::
      RowsOf(parts', s.table) == if s in segs then Apply(def, c, RowsOf(parts, s.table)) else RowsOf(parts, s.table)
  }

  /** One more partition: its rows were as before, and now they are changed. */
  lemma RanOnStep(h: Hash, def: TableDef, c: Change, segs: seq<Segment>, k: nat, parts: Parts, parts': Parts)
    requires DistinctTables(h.segments) && DistinctRanges(segs) && (forall s | s in segs :: s in h.segments) && k < |segs|
    requires RanOn(h, def, c, segs[..k], parts, parts')
    ensures RowsOf(parts', segs[k].table) == RowsOf(parts, segs[k].table)
    ensures RanOn(h, def, c, segs[..k + 1], parts, parts'[segs[k].table := Apply(def, c, RowsOf(parts', segs[k].table))])
  {
    var seg := segs[k];
    var after := parts'[seg.table := Apply(def, c, RowsOf(parts', seg.table))];
    assert seg in segs && seg !in segs[..k];
    TakeOneMore(segs, k);
    forall s | s in h.segments
      ensures RowsOf(after, s.table) == if s in segs[..k + 1] then Apply(def, c, RowsOf(parts, s.table)) else RowsOf(parts, s.table)
    {
      assert s.table == seg.table ==> s == seg;
    }
  }

  /** Rows in partitions the statement does not go to are not hit by it. */
  lemma OthersUnhit(h: Hash, def: TableDef, c: Change, segs: seq<Segment>, parts: Parts, s: Segment)
    requires Placed(h, def, parts) && Reaches(h, def, c.where, segs)
    requires s in h.segments && s !in segs
    ensures Apply(def, c, RowsOf(parts, s.table)) == RowsOf(parts, s.table)
    ensures Affected(def, c, RowsOf(parts, s.table)) == 0
  {
    forall r | r in RowsOf(parts, s.table) ensures !Hits(def, c, r) {
      assert AtHome(h, def, s, r);
    }
    NoHits(def, c, RowsOf(parts, s.table));
  }

  /** Running the statement on the chosen partitions is running it on the whole table. */
  lemma RanOnAll(h: Hash, def: TableDef, c: Change, segs: seq<Segment>, parts: Parts, parts': Parts)
    requires Placed(h, def, parts) && Reaches(h, def, c.where, segs) && RanOn(h, def, c, segs, parts, parts')
    ensures Flat(h.segments, parts') == Apply(def, c, Flat(h.segments, parts))
  {
    forall s | s in h.segments ensures RowsOf(parts', s.table) == Apply(def, c, RowsOf(parts, s.table)) {
      if s !in segs {
        OthersUnhit(h, def, c, segs, parts, s);
      }
    }
    FlatApply(def, c, h.segments, parts, parts');
  }

  /** The statement keeps the shard key of every row. */
  ghost predicate KeepsKey(def: TableDef, c: Change) {
    c.Rewrite? ==> forall r :: KeyOf(def, c.u(r)) == KeyOf(def, r)
  }

  lemma StaysPlaced(h: Hash, def: TableDef, c: Change, segs: seq<Segment>, parts: Parts, parts': Parts)
    requires Placed(h, def, parts) && RanOn(h, def, c, segs, parts, parts') && KeepsKey(def, c)
    ensures Placed(h, def, parts')
  {
    forall s, x | s in h.segments && x in RowsOf(parts', s.table) ensures AtHome(h, def, s, x) {
      if s in segs {
        ApplyElement(def, c, RowsOf(parts, s.table), x);
        var r :| r in RowsOf(parts, s.table) && x in Effect(def, c, r);
        assert AtHome(h, def, s, r) && KeyOf(def, x) == KeyOf(def, r);
      }
    }
  }

  /** The rows the statement affects, partition after partition. */
  function AffectedIn(def: TableDef, c: Change, segs: seq<Segment>, parts: Parts): (n: nat) {
    if segs == [] then 0
    else AffectedIn(def, c, segs[..|segs| - 1], parts) + Affected(def, c, RowsOf(parts, segs[|segs| - 1].table))
  }

  lemma AffectedStep(def: TableDef, c: Change, segs: seq<Segment>, k: nat, parts: Parts)
    requires k < |segs|
    ensures AffectedIn(def, c, segs[..k + 1], parts) == AffectedIn(def, c, segs[..k], parts) + Affected(def, c, RowsOf(parts, segs[k].table))
  {
    assert segs[..k + 1][..k] == segs[..k];
  }

  lemma {:induction false} AffectedFlat(def: TableDef, c: Change, segs: seq<Segment>, parts: Parts)
    ensures Affected(def, c, Flat(segs, parts)) == AffectedIn(def, c, segs, parts)
    decreases |segs|
  {
    if segs != [] {
      var n := |segs| - 1;
      AffectedFlat(def, c, segs[..n], parts);
      ApplyAppend(def, c, Flat(segs[..n], parts), RowsOf(parts, segs[n].table));
    }
  }

  lemma {:induction false} AffectedAppend(def: TableDef, c: Change, a: seq<Segment>, b: seq<Segment>, parts: Parts)
    ensures AffectedIn(def, c, a + b, parts) == AffectedIn(def, c, a, parts) + AffectedIn(def, c, b, parts)
    decreases |b|
  {
    if b == [] {
      assert a + b == a;
    } else {
      assert (a + b)[..|a + b| - 1] == a + b[..|b| - 1];
      AffectedAppend(def, c, a, b[..|b| - 1], parts);
    }
  }

  lemma AffectedWithout(def: TableDef, c: Change, segs: seq<Segment>, i: nat, parts: Parts)
    requires i < |segs|
    ensures AffectedIn(def, c, segs, parts) == AffectedIn(def, c, Without(segs, i), parts) + Affected(def, c, RowsOf(parts, segs[i].table))
  {
    assert segs == segs[..i + 1] + segs[i + 1..] && segs[..i + 1][..i] == segs[..i];
    AffectedAppend(def, c, segs[..i + 1], segs[i + 1..], parts);
    AffectedAppend(def, c, segs[..i], segs[i + 1..], parts);
  }

  predicate Distinct(segs: seq<Segment>) {
    forall i, j | 0 <= i < j < |segs| :: segs[i] != segs[j]
  }

  lemma WithoutDistinct(segs: seq<Segment>, i: nat)
    requires Distinct(segs) && i < |segs|
    ensures Distinct(Without(segs, i)) && forall s :: s in Without(segs, i) <==> s in segs && s != segs[i]
  {
    var w := Without(segs, i);
    assert forall k | 0 <= k < |w| :: w[k] == if k < i then segs[k] else segs[k + 1];
    forall s | s in segs && s != segs[i] ensures s in w {
      var k :| 0 <= k < |segs| && segs[k] == s;
      assert s == w[if k < i then k else k - 1];
    }
  }

  lemma {:induction false} NoneAffected(def: TableDef, c: Change, segs: seq<Segment>, parts: Parts)
    requires forall s | s in segs :: Affected(def, c, RowsOf(parts, s.table)) == 0
    ensures AffectedIn(def, c, segs, parts) == 0
    decreases |segs|
  {
    if segs != [] {
      NoneAffected(def, c, segs[..|segs| - 1], parts);
      assert segs[|segs| - 1] in segs;
    }
  }

  /** Counting in some of the partitions is counting in all of them when the others count nothing. */
  lemma {:induction false} SameAffected(def: TableDef, c: Change, some: seq<Segment>, all: seq<Segment>, parts: Parts)
    requires Distinct(some) && Distinct(all) && forall s | s in some :: s in all
    requires forall s | s in all && s !in some :: Affected(def, c, RowsOf(parts, s.table)) == 0
    ensures AffectedIn(def, c, some, parts) == AffectedIn(def, c, all, parts)
    decreases |some|
  {
    if some == [] {
      NoneAffected(def, c, all, parts);
    } else {
      var n := |some| - 1;
      assert some[n] in some;
      var i: nat :| i < |all| && all[i] == some[n];
      assert Without(some, n) == some[..n];
      WithoutDistinct(some, n);
      WithoutDistinct(all, i);
      SameAffected(def, c, some[..n], Without(all, i), parts);
      AffectedWithout(def, c, all, i, parts);
    }
  }

  /** The chosen partitions affect as many rows as the whole table has to affect. */
  lemma AffectsAll(h: Hash, def: TableDef, c: Change, segs: seq<Segment>, parts: Parts)
    requires h.Built() && Placed(h, def, parts) && Reaches(h, def, c.where, segs)
    ensures AffectedIn(def, c, segs, parts) == Affected(def, c, Flat(h.segments, parts))
  {
    BuiltDistinct(h);
    forall s | s in h.segments && s !in segs ensures Affected(def, c, RowsOf(parts, s.table)) == 0 {
      OthersUnhit(h, def, c, segs, parts, s);
    }
    SameAffected(def, c, segs, h.segments, parts);
    AffectedFlat(def, c, h.segments, parts);
  }

  // ---------------------------------------------------------------- INSERT

  function Stored(store: seq<Expr> -> Row, rows: seq<seq<Expr>>): (rs: seq<Row>)
    ensures |rs| == |rows|
  {
    seq(|rows|, i requires 0 <= i < |rows| => store(rows[i]))
  }

  /** The first of the columns that is the shard key. */
  predicate IsKeyColumn(def: TableDef, columns: seq<string>, idx: nat) {
    idx < |columns| && EqualFold(columns[idx], def.shardKey) && forall j | 0 <= j < idx :: !EqualFold(columns[j], def.shardKey)
  }

  /** The literal hashes into the partition of the key that is stored for it. */
  predicate StoredHome(h: Hash, def: TableDef, l: Literal, stored: Row)
    reads h
  {
    h.hash(l).Some? ==> Keyed(def, stored) && SegmentAt(h, h.hash(l).value) == Home(h, def, stored)
  }

  /** The key of every row hashes into the partition of the key a backend stores for it. */
  ghost predicate RowsHome(h: Hash, def: TableDef, columns: seq<string>, rows: seq<seq<Expr>>, store: seq<Expr> -> Row)
    reads h
  {
    forall k: nat, row: seq<Expr> | IsKeyColumn(def, columns, k) && row in rows && k < |row| && row[k].SQLVal? ::
      StoredHome(h, def, row[k].val, store(row))
  }

  /** The key a backend stores for a row of the statement compares equal to its literal. */
  ghost predicate StoresKey(def: TableDef, columns: seq<string>, rows: seq<seq<Expr>>, store: seq<Expr> -> Row) {
    forall k: nat, row: seq<Expr> | IsKeyColumn(def, columns, k) && row in rows && k < |row| && row[k].SQLVal? ::
      SqlEqual(def.means(row[k].val), KeyOf(def, store(row)))
  }

  /** The key of every row is written so that it hashes into the partition of its value. */
  ghost predicate RowsSpelled(h: Hash, def: TableDef, columns: seq<string>, rows: seq<seq<Expr>>)
    reads h
  {
    forall k: nat, row: seq<Expr> | IsKeyColumn(def, columns, k) && row in rows && k < |row| && row[k].SQLVal? :: Spelled(h, def, row[k].val)
  }

  /** What the backend makes of a row is at home in the partition the row was sent to if and only if its literal hashes
      into the partition of the key that is stored. When the stored key is equal to the literal, that is if and only
      if the literal hashes into the partition of the value it stands for. */
  lemma TargetIsHome(h: Hash, def: TableDef, idx: nat, row: seq<Expr>, stored: Row)
    requires Ready(h, def) && Target(h, idx, row).Some?
    ensures AtHome(h, def, Target(h, idx, row).value, stored) <==> StoredHome(h, def, row[idx].val, stored)
    ensures SqlEqual(def.means(row[idx].val), KeyOf(def, stored)) ==>
              (AtHome(h, def, Target(h, idx, row).value, stored) <==> Spelled(h, def, row[idx].val))
  {
    var v := row[idx].val;
    if SqlEqual(def.means(v), KeyOf(def, stored)) {
      assert def.slot(def.means(v)) == def.slot(KeyOf(def, stored));
    }
  }

  /** Rows whose keys are stored as they are meant and written for it are sent home. */
  lemma SpelledHome(h: Hash, def: TableDef, columns: seq<string>, rows: seq<seq<Expr>>, store: seq<Expr> -> Row)
    requires Ready(h, def) && StoresKey(def, columns, rows, store) && RowsSpelled(h, def, columns, rows)
    ensures RowsHome(h, def, columns, rows, store)
  {
    forall k: nat, row: seq<Expr> | IsKeyColumn(def, columns, k) && row in rows && k < |row| && row[k].SQLVal?
      ensures StoredHome(h, def, row[k].val, store(row))
    {
      assert SqlEqual(def.means(row[k].val), KeyOf(def, store(row))) && Spelled(h, def, row[k].val);
      assert def.slot(def.means(row[k].val)) == def.slot(KeyOf(def, store(row)));
    }
  }

  /** Every partition table has its rows of the statement after its own. */
  ghost predicate Inserted(h: Hash, idx: nat, rows: seq<seq<Expr>>, store: seq<Expr> -> Row, parts: Parts, parts': Parts)
    reads h
  {
    forall s | s in h.segments :: GotShare(h, idx, rows, store, parts, parts', s.table)
  }

  ghost predicate GotShare(h: Hash, idx: nat, rows: seq<seq<Expr>>, store: seq<Expr> -> Row, parts: Parts, parts': Parts, table: string)
    reads h
  {
    RowsOf(parts', table) == RowsOf(parts, table) + Share(h, idx, rows, store, table)
  }

  /** The first queries of a plan were run. */
  ghost predicate RanQueries(qs: seq<InsertQuery>, n: nat, store: seq<Expr> -> Row, parts: Parts, parts': Parts)
    requires n <= |qs|
  {
    && (forall k | 0 <= k < n :: GotRows(qs[k], store, parts, parts'))
    && (forall t | NoQuery(qs, n, t) :: SameRows(t, parts, parts'))
  }

  /** None of the first queries of a plan is for the table. */
  predicate NoQuery(qs: seq<InsertQuery>, n: nat, t: string)
    requires n <= |qs|
  {
    forall k | 0 <= k < n :: qs[k].table != t
  }

  predicate SameRows(t: string, parts: Parts, parts': Parts) {
    RowsOf(parts', t) == RowsOf(parts, t)
  }

  ghost predicate GotRows(q: InsertQuery, store: seq<Expr> -> Row, parts: Parts, parts': Parts) {
    RowsOf(parts', q.table) == RowsOf(parts, q.table) + Stored(store, q.rows)
  }

  predicate OncePerTable(qs: seq<InsertQuery>) {
    forall i, j | 0 <= i < j < |qs| :: qs[i].table != qs[j].table
  }

  lemma TablesOnce(qs: seq<InsertQuery>)
    requires forall i, j | 0 <= i < j < |qs| :: CompareStrings(qs[i].table, qs[j].table) < 0
    ensures OncePerTable(qs)
  {
    forall i, j | 0 <= i < j < |qs| ensures qs[i].table != qs[j].table {
      CompareAntisymmetric(qs[i].table, qs[j].table);
    }
  }

  /** The two differ in one table at most. */
  ghost predicate OnlyAt(table: string, parts: Parts, parts': Parts) {
    forall t | t != table :: SameRows(t, parts, parts')
  }

  lemma GotRowsKept(q: InsertQuery, store: seq<Expr> -> Row, parts: Parts, mid: Parts, parts': Parts)
    ensures GotRows(q, store, parts, mid) && SameRows(q.table, mid, parts') ==> GotRows(q, store, parts, parts')
    ensures SameRows(q.table, parts, mid) && GotRows(q, store, mid, parts') ==> GotRows(q, store, parts, parts')
  {
  }

  lemma SameRowsTwice(t: string, parts: Parts, mid: Parts, parts': Parts)
    requires SameRows(t, parts, mid) && SameRows(t, mid, parts')
    ensures SameRows(t, parts, parts')
  {
  }

  lemma RanQueriesStep(qs: seq<InsertQuery>, n: nat, store: seq<Expr> -> Row, parts: Parts, mid: Parts, parts': Parts)
    requires n < |qs| && RanQueries(qs, n, store, parts, mid) && OncePerTable(qs)
    requires GotRows(qs[n], store, mid, parts') && OnlyAt(qs[n].table, mid, parts')
    ensures RanQueries(qs, n + 1, store, parts, parts')
  {
    assert NoQuery(qs, n, qs[n].table);
    forall i | 0 <= i < n + 1 ensures GotRows(qs[i], store, parts, parts') {
      GotRowsKept(qs[i], store, parts, mid, parts');
      assert i < n ==> GotRows(qs[i], store, parts, mid) && SameRows(qs[i].table, mid, parts');
    }
    forall t | NoQuery(qs, n + 1, t) ensures SameRows(t, parts, parts') {
      assert NoQuery(qs, n, t) && qs[n].table != t;
      SameRowsTwice(t, parts, mid, parts');
    }
  }

  lemma RanAllQueries(h: Hash, idx: nat, rows: seq<seq<Expr>>, qs: seq<InsertQuery>, store: seq<Expr> -> Row, parts: Parts, parts': Parts)
    requires Planned(h, idx, rows, qs) && RanQueries(qs, |qs|, store, parts, parts')
    ensures Inserted(h, idx, rows, store, parts, parts')
  {
    forall s | s in h.segments
      ensures GotShare(h, idx, rows, store, parts, parts', s.table)
    {
      if exists k :: 0 <= k < |qs| && qs[k].table == s.table {
        var k :| 0 <= k < |qs| && qs[k].table == s.table;
        assert GotRows(qs[k], store, parts, parts') && qs[k].rows == RowsFor(h, idx, rows, s.table);
      } else {
        assert NoQuery(qs, |qs|, s.table) && SameRows(s.table, parts, parts') && RowsFor(h, idx, rows, s.table) == [];
      }
    }
  }

  lemma {:induction false} RowsForElement(h: Hash, idx: nat, rows: seq<seq<Expr>>, t: string, row: seq<Expr>)
    requires row in RowsFor(h, idx, rows, t)
    ensures row in rows && GoesTo(h, idx, row, t)
    decreases |rows|
  {
    var n := |rows| - 1;
    if row in RowsFor(h, idx, rows[..n], t) {
      RowsForElement(h, idx, rows[..n], t, row);
    }
  }

  /** One more row in one partition is one more row in all. */
  lemma {:induction false} FlatOneMore(segs: seq<Segment>, i: nat, x: Row, parts: Parts, parts': Parts)
    requires i < |segs| && RowsOf(parts', segs[i].table) == RowsOf(parts, segs[i].table) + [x]
    requires forall k | 0 <= k < |segs| && k != i :: RowsOf(parts', segs[k].table) == RowsOf(parts, segs[k].table)
    ensures multiset(Flat(segs, parts')) == multiset(Flat(segs, parts)) + multiset{x}
    decreases |segs|
  {
    var n := |segs| - 1;
    if i < n {
      FlatOneMore(segs[..n], i, x, parts, parts');
      OneMoreBefore(Flat(segs[..n], parts), Flat(segs[..n], parts'), RowsOf(parts, segs[n].table), x);
    } else {
      SameFlat(segs[..n], parts, parts');
      OneMoreAfter(Flat(segs[..n], parts), RowsOf(parts, segs[n].table), x);
    }
  }

  /** What a partition table gets from the statement. */
  function Share(h: Hash, idx: nat, rows: seq<seq<Expr>>, store: seq<Expr> -> Row, table: string): (rs: seq<Row>)
    reads h
  {
    Stored(store, RowsFor(h, idx, rows, table))
  }

  lemma ShareStep(h: Hash, idx: nat, rows: seq<seq<Expr>>, row: seq<Expr>, store: seq<Expr> -> Row, t: string)
    ensures Share(h, idx, rows + [row], store, t) == Share(h, idx, rows, store, t) + if GoesTo(h, idx, row, t) then [store(row)] else []
  {
    RowsForStep(h, idx, rows, row, t);
    StoredStep(store, RowsFor(h, idx, rows, t), row);
  }

  lemma StoredStep(store: seq<Expr> -> Row, rows: seq<seq<Expr>>, row: seq<Expr>)
    ensures Stored(store, rows + [row]) == Stored(store, rows) + [store(row)]
    ensures multiset(Stored(store, rows + [row])) == multiset(Stored(store, rows)) + multiset{store(row)}
  {
  }

  /** The table after the rows went to their partitions. */
  ghost function AfterInsert(h: Hash, idx: nat, rows: seq<seq<Expr>>, store: seq<Expr> -> Row, parts: Parts): (parts': Parts)
    reads h
    ensures Inserted(h, idx, rows, store, parts, parts')
  {
    var tables := set s | s in h.segments :: s.table;
    map t | t in tables :: RowsOf(parts, t) + Share(h, idx, rows, store, t)
  }

  lemma OneMoreShare(h: Hash, idx: nat, rows: seq<seq<Expr>>, row: seq<Expr>, store: seq<Expr> -> Row, parts: Parts, mid: Parts, parts': Parts, t: string)
    requires GotShare(h, idx, rows, store, parts, mid, t) && GotShare(h, idx, rows + [row], store, parts, parts', t)
    ensures GoesTo(h, idx, row, t) ==> RowsOf(parts', t) == RowsOf(mid, t) + [store(row)]
    ensures !GoesTo(h, idx, row, t) ==> RowsOf(parts', t) == RowsOf(mid, t)
  {
    ShareStep(h, idx, rows, row, store, t);
  }

  lemma InsertOne(h: Hash, idx: nat, rows: seq<seq<Expr>>, row: seq<Expr>, store: seq<Expr> -> Row, parts: Parts, mid: Parts, parts': Parts)
    requires DistinctTables(h.segments) && Target(h, idx, row).Some? && Target(h, idx, row).value in h.segments
    requires Inserted(h, idx, rows, store, parts, mid) && Inserted(h, idx, rows + [row], store, parts, parts')
    ensures multiset(Flat(h.segments, parts')) == multiset(Flat(h.segments, mid)) + multiset{store(row)}
  {
    var segs := h.segments;
    var i: nat :| i < |segs| && segs[i] == Target(h, idx, row).value;
    forall k | 0 <= k < |segs| && k != i ensures RowsOf(parts', segs[k].table) == RowsOf(mid, segs[k].table) {
      OneMoreShare(h, idx, rows, row, store, parts, mid, parts', segs[k].table);
    }
    OneMoreShare(h, idx, rows, row, store, parts, mid, parts', segs[i].table);
    FlatOneMore(segs, i, store(row), mid, parts');
  }

  lemma InsertNone(h: Hash, idx: nat, store: seq<Expr> -> Row, parts: Parts, parts': Parts)
    requires Inserted(h, idx, [], store, parts, parts')
    ensures Flat(h.segments, parts') == Flat(h.segments, parts)
  {
    forall s | s in h.segments ensures RowsOf(parts', s.table) == RowsOf(parts, s.table) {
      assert GotShare(h, idx, [], store, parts, parts', s.table) && Share(h, idx, [], store, s.table) == [];
    }
    SameFlat(h.segments, parts, parts');
  }

  /** No row of the statement is lost and none is stored twice. */
  lemma {:induction false} InsertConserves(h: Hash, idx: nat, rows: seq<seq<Expr>>, store: seq<Expr> -> Row, parts: Parts, parts': Parts)
    requires DistinctTables(h.segments) && AllTargeted(h, idx, rows) && TargetsAreSegments(h, idx, rows)
    requires Inserted(h, idx, rows, store, parts, parts')
    ensures multiset(Flat(h.segments, parts')) == multiset(Flat(h.segments, parts)) + multiset(Stored(store, rows))
    decreases |rows|
  {
    if rows == [] {
      InsertNone(h, idx, store, parts, parts');
    } else {
      var n := |rows| - 1;
      var mid := AfterInsert(h, idx, rows[..n], store, parts);
      InsertConserves(h, idx, rows[..n], store, parts, mid);
      InsertLast(h, idx, rows, store, parts, mid, parts');
    }
  }

  lemma InsertLast(h: Hash, idx: nat, rows: seq<seq<Expr>>, store: seq<Expr> -> Row, parts: Parts, mid: Parts, parts': Parts)
    requires DistinctTables(h.segments) && AllTargeted(h, idx, rows) && TargetsAreSegments(h, idx, rows) && rows != []
    requires Inserted(h, idx, rows[..|rows| - 1], store, parts, mid) && Inserted(h, idx, rows, store, parts, parts')
    requires multiset(Flat(h.segments, mid)) == multiset(Flat(h.segments, parts)) + multiset(Stored(store, rows[..|rows| - 1]))
    ensures multiset(Flat(h.segments, parts')) == multiset(Flat(h.segments, parts)) + multiset(Stored(store, rows))
  {
    var before, row := rows[..|rows| - 1], rows[|rows| - 1];
    LastApart(rows);
    StoredStep(store, before, row);
    InsertOne(h, idx, before, row, store, parts, mid, parts');
  }

  lemma {:induction false} SameFlat(segs: seq<Segment>, parts: Parts, parts': Parts)
    requires forall s | s in segs :: RowsOf(parts', s.table) == RowsOf(parts, s.table)
    ensures Flat(segs, parts') == Flat(segs, parts)
    decreases |segs|
  {
    if segs != [] {
      SameFlat(segs[..|segs| - 1], parts, parts');
      assert segs[|segs| - 1] in segs;
    }
  }

  lemma ShareAtHome(h: Hash, def: TableDef, columns: seq<string>, idx: nat, rows: seq<seq<Expr>>, store: seq<Expr> -> Row, s: Segment, x: Row)
    requires Ready(h, def) && RowsHome(h, def, columns, rows, store) && IsKeyColumn(def, columns, idx)
    requires s in h.segments && x in Share(h, idx, rows, store, s.table)
    ensures AtHome(h, def, s, x)
  {
    var mine := RowsFor(h, idx, rows, s.table);
    var k :| 0 <= k < |mine| && x == store(mine[k]);
    RowsForElement(h, idx, rows, s.table, mine[k]);
    TargetIsHome(h, def, idx, mine[k], x);
    TargetIsSegment(h, def, idx, mine[k]);
    TablesDiffer(h, def, s, Target(h, idx, mine[k]).value);
  }

  lemma InsertPlaced(h: Hash, def: TableDef, columns: seq<string>, idx: nat, rows: seq<seq<Expr>>, store: seq<Expr> -> Row, parts: Parts, parts': Parts)
    requires Ready(h, def) && RowsHome(h, def, columns, rows, store) && IsKeyColumn(def, columns, idx)
    requires Placed(h, def, parts) && Inserted(h, idx, rows, store, parts, parts')
    ensures Placed(h, def, parts')
  {
    forall s, x | s in h.segments && x in RowsOf(parts', s.table) ensures AtHome(h, def, s, x) {
      assert GotShare(h, idx, rows, store, parts, parts', s.table);
      InEither(RowsOf(parts, s.table), Share(h, idx, rows, store, s.table), x);
      if x !in RowsOf(parts, s.table) {
        ShareAtHome(h, def, columns, idx, rows, store, s, x);
      }
    }
  }

  /** A plan that was run added its rows to the table, each in its place. */
  lemma InsertKeeps(h: Hash, def: TableDef, columns: seq<string>, idx: nat, rows: seq<seq<Expr>>, qs: seq<InsertQuery>, store: seq<Expr> -> Row, parts: Parts, parts': Parts)
    requires Ready(h, def) && RowsHome(h, def, columns, rows, store) && IsKeyColumn(def, columns, idx)
    requires Planned(h, idx, rows, qs) && AllTargeted(h, idx, rows)
    requires Placed(h, def, parts) && RanQueries(qs, |qs|, store, parts, parts')
    ensures Placed(h, def, parts')
    ensures multiset(Flat(h.segments, parts')) == multiset(Flat(h.segments, parts)) + multiset(Stored(store, rows))
  {
    RanAllQueries(h, idx, rows, qs, store, parts, parts');
    InsertPlaced(h, def, columns, idx, rows, store, parts, parts');
    ReadyDistinct(h, def);
    ReadyTargets(h, def, idx, rows);
    InsertConserves(h, idx, rows, store, parts, parts');
  }

  // ---------------------------------------------------------------- the plans

  predicate UpdatesKey(targets: seq<string>, shardKey: string) {
    shardKey != "" && exists k | 0 <= k < |targets| :: EqualFold(targets[k], shardKey)
  }

  /** Whether one of the assigned columns is the shard key. */
  method IsUpdateShardKey(targets: seq<string>, shardKey: string) returns (b: bool)
    ensures b <==> UpdatesKey(targets, shardKey)
  {
    if shardKey != "" {
      for k := 0 to |targets|
        invariant forall j | 0 <= j < k :: !EqualFold(targets[j], shardKey)
      {
        if EqualFold(targets[k], shardKey) {
          return true;
        }
      }
    }
    return false;
  }

  /** Where an UPDATE goes: nowhere when it has a subquery, has no WHERE clause or assigns the shard
      key, else to partitions that hold every row it is about. */
  method PlanUpdate(h: Hash, def: TableDef, targets: seq<string>, subquery: bool, where: Option<Expr>) returns (r: Option<seq<Segment>>)
    requires Ready(h, def)
    ensures subquery || where.None? || UpdatesKey(targets, def.shardKey) ==> r.None?
    ensures r.None? ==> subquery || where.None? || UpdatesKey(targets, def.shardKey) || CannotRoute(h, def, where)
    ensures r.Some? ==> InTable(h, r.value)
    ensures r.Some? && WhereSpelled(h, def, where) ==> Reaches(h, def, where, r.value)
    ensures where.Some? && def.shardKey != "" && r.Some? ==> NoneSpare(h, def, where.value, r.value)
  {
    if subquery || where.None? {
      return None;
    }
    var updatesKey := IsUpdateShardKey(targets, def.shardKey);
    if updatesKey {
      return None;
    }
    r := LookupFromWhere(h, def, where);
  }

  /** Where a DELETE goes: everywhere without a WHERE clause. */
  method PlanDelete(h: Hash, def: TableDef, where: Option<Expr>) returns (r: Option<seq<Segment>>)
    requires Ready(h, def)
    ensures where.None? ==> r == Some(h.segments)
    ensures r.None? ==> CannotRoute(h, def, where)
    ensures r.Some? ==> InTable(h, r.value)
    ensures r.Some? && WhereSpelled(h, def, where) ==> Reaches(h, def, where, r.value)
    ensures where.Some? && def.shardKey != "" && r.Some? ==> NoneSpare(h, def, where.value, r.value)
  {
    if where.None? {
      AllReach(h, def, where);
      r := h.Lookup(None, None);
    } else {
      r := LookupFromWhere(h, def, where);
    }
  }

  // ---------------------------------------------------------------- the table

  datatype Stmt =
    | InsertStmt(columns: seq<string>, rows: seq<seq<Expr>>, store: seq<Expr> -> Row)
    | UpdateStmt(targets: seq<string>, subquery: bool, where: Option<Expr>, u: Row -> Row)
    | DeleteStmt(where: Option<Expr>)

  /** Assignments to other columns leave the shard key as it is. */
  ghost predicate TouchesOnly(def: TableDef, targets: seq<string>, u: Row -> Row) {
    UpdatesKey(targets, def.shardKey) || forall r :: KeyOf(def, u(r)) == KeyOf(def, r)
  }

  /** The backends do with the statement what it says. */
  ghost predicate Meant(def: TableDef, st: Stmt) {
    match st
    case InsertStmt(_, _, _) => true
    case UpdateStmt(targets, _, _, u) => TouchesOnly(def, targets, u)
    case DeleteStmt(_) => true
  }

  /** The keys a statement names hash into the partitions of the values they stand for, or are stored as. */
  ghost predicate KeysAgree(h: Hash, def: TableDef, st: Stmt)
    reads h
  {
    match st
    case InsertStmt(columns, rows, store) => RowsHome(h, def, columns, rows, store)
    case UpdateStmt(_, _, where, _) => WhereSpelled(h, def, where)
    case DeleteStmt(where) => WhereSpelled(h, def, where)
  }

  /** One table after the statement; a statement that is refused leaves it alone. */
  function After(def: TableDef, st: Stmt, ok: bool, rows: seq<Row>): (rs: seq<Row>) {
    if !ok then rows
    else
      match st
      case InsertStmt(_, added, store) => rows + Stored(store, added)
      case UpdateStmt(_, _, where, u) => Apply(def, Rewrite(where, u), rows)
      case DeleteStmt(where) => Apply(def, Remove(where), rows)
  }

  /** One table after a list of statements. */
  function AfterAll(def: TableDef, stmts: seq<Stmt>, oks: seq<bool>, rows: seq<Row>): (rs: seq<Row>)
    requires |stmts| == |oks|
  {
    if stmts == [] then rows
    else
      var n := |stmts| - 1;
      After(def, stmts[n], oks[n], AfterAll(def, stmts[..n], oks[..n], rows))
  }

  /** A hash table in its partitions, with the one table it stands for. */
  class Sharded {
    const h: Hash
    const def: TableDef
    var parts: Parts
    ghost var logical: seq<Row>

    ghost predicate Valid()
      reads this, h
    {
      && Ready(h, def) && def.shardKey != ""
      && Placed(h, def, parts)
      && multiset(logical) == multiset(Flat(h.segments, parts))
    }

    constructor (h: Hash, def: TableDef)
      requires Ready(h, def) && def.shardKey != ""
      ensures this.h == h && this.def == def && Valid() && logical == []
    {
      this.h, this.def := h, def;
      parts, logical := map[], [];
      new;
      FlatEmpty(h.segments);
    }

    /** Runs the statement on some of the partitions. */
    method RunOnSegments(c: Change, segs: seq<Segment>) returns (affected: nat)
      requires DistinctTables(h.segments) && DistinctRanges(segs) && forall s | s in segs :: s in h.segments
      modifies this`parts
      ensures RanOn(h, def, c, segs, old(parts), parts) && affected == AffectedIn(def, c, segs, old(parts))
    {
      affected := 0;
      for k := 0 to |segs|
        invariant RanOn(h, def, c, segs[..k], old(parts), parts)
        invariant affected == AffectedIn(def, c, segs[..k], old(parts))
      {
        RanOnStep(h, def, c, segs, k, old(parts), parts);
        AffectedStep(def, c, segs, k, old(parts));
        affected := affected + Affected(def, c, RowsOf(parts, segs[k].table));
        parts := parts[segs[k].table := Apply(def, c, RowsOf(parts, segs[k].table))];
      }
      assert segs[..|segs|] == segs;
    }

    /** A statement run on the partitions it was planned for does to the one table what it says. */
    method RunChange(c: Change, segs: seq<Segment>) returns (affected: nat)
      requires Valid() && Reaches(h, def, c.where, segs) && KeepsKey(def, c)
      modifies this
      ensures Valid() && logical == Apply(def, c, old(logical)) && affected == Affected(def, c, old(logical))
    {
      ReadyDistinct(h, def);
      affected := RunOnSegments(c, segs);
      RanOnAll(h, def, c, segs, old(parts), parts);
      StaysPlaced(h, def, c, segs, old(parts), parts);
      AffectsAll(h, def, c, segs, old(parts));
      ApplyPermutation(def, c, old(logical), Flat(h.segments, old(parts)));
      logical := Apply(def, c, logical);
    }

    /** Runs the queries of an INSERT plan. */
    method RunInsert(qs: seq<InsertQuery>, store: seq<Expr> -> Row)
      requires OncePerTable(qs)
      modifies this`parts
      ensures RanQueries(qs, |qs|, store, old(parts), parts)
    {
      for k := 0 to |qs|
        invariant RanQueries(qs, k, store, old(parts), parts)
      {
        ghost var mid := parts;
        parts := parts[qs[k].table := RowsOf(parts, qs[k].table) + Stored(store, qs[k].rows)];
        RanQueriesStep(qs, k, store, old(parts), mid, parts);
      }
    }

    method Insert(columns: seq<string>, rows: seq<seq<Expr>>, store: seq<Expr> -> Row) returns (ok: bool)
      requires Valid() && RowsHome(h, def, columns, rows, store)
      modifies this
      ensures Valid() && logical == After(def, InsertStmt(columns, rows, store), ok, old(logical))
      ensures ok <==> exists idx :: IsKeyColumn(def, columns, idx) && AllTargeted(h, idx, rows)
    {
      var idx, plan := Build(h, def, columns, rows);
      if plan.None? {
        return false;
      }
      assert IsKeyColumn(def, columns, idx.value);
      TablesOnce(plan.value);
      RunInsert(plan.value, store);
      InsertKeeps(h, def, columns, idx.value, rows, plan.value, store, old(parts), parts);
      logical := logical + Stored(store, rows);
      return true;
    }

    method Update(targets: seq<string>, subquery: bool, where: Option<Expr>, u: Row -> Row) returns (affected: Option<nat>)
      requires Valid() && TouchesOnly(def, targets, u) && WhereSpelled(h, def, where)
      modifies this
      ensures Valid() && logical == After(def, UpdateStmt(targets, subquery, where, u), affected.Some?, old(logical))
      ensures affected.Some? ==> affected.value == Affected(def, Rewrite(where, u), old(logical))
      ensures subquery || where.None? || UpdatesKey(targets, def.shardKey) ==> affected.None?
      ensures affected.None? ==> subquery || where.None? || UpdatesKey(targets, def.shardKey) || CannotRoute(h, def, where)
    {
      var segs := PlanUpdate(h, def, targets, subquery, where);
      if segs.None? {
        return None;
      }
      var n := RunChange(Rewrite(where, u), segs.value);
      return Some(n);
    }

    method Delete(where: Option<Expr>) returns (affected: Option<nat>)
      requires Valid() && WhereSpelled(h, def, where)
      modifies this
      ensures Valid() && logical == After(def, DeleteStmt(where), affected.Some?, old(logical))
      ensures affected.Some? ==> affected.value == Affected(def, Remove(where), old(logical))
      ensures affected.None? ==> CannotRoute(h, def, where)
    {
      var segs := PlanDelete(h, def, where);
      if segs.None? {
        return None;
      }
      var n := RunChange(Remove(where), segs.value);
      return Some(n);
    }

    method RunOne(st: Stmt) returns (ok: bool)
      requires Valid() && Meant(def, st) && KeysAgree(h, def, st)
      modifies this
      ensures Valid() && logical == After(def, st, ok, old(logical))
    {
      match st
      case InsertStmt(columns, rows, store) =>
        ok := Insert(columns, rows, store);
      case UpdateStmt(targets, subquery, where, u) =>
        var n := Update(targets, subquery, where, u);
        ok := n.Some?;
      case DeleteStmt(where) =>
        var n := Delete(where);
        ok := n.Some?;
    }

    /** Any list of statements: the partitions together hold, after each of them, the rows the one
        table would hold, every row in the partition of its key. */
    method Run(stmts: seq<Stmt>) returns (oks: seq<bool>)
      requires Valid() && forall k | 0 <= k < |stmts| :: Meant(def, stmts[k]) && KeysAgree(h, def, stmts[k])
      modifies this
      ensures Valid() && |oks| == |stmts| && logical == AfterAll(def, stmts, oks, old(logical))
    {
      oks := [];
      for k := 0 to |stmts|
        invariant Valid() && |oks| == k && logical == AfterAll(def, stmts[..k], oks, old(logical))
      {
        var ok := RunOne(stmts[k]);
        assert stmts[..k + 1][..k] == stmts[..k] && (oks + [ok])[..k] == oks;
        oks := oks + [ok];
      }
      assert stmts[..|stmts|] == stmts;
    }
  }

  lemma {:induction false} FlatEmpty(segs: seq<Segment>)
    ensures Flat(segs, map[]) == []
    decreases |segs|
  {
    if segs != [] {
      FlatEmpty(segs[..|segs| - 1]);
    }
  }

  lemma ReadyTargets(h: Hash, def: TableDef, idx: nat, rows: seq<seq<Expr>>)
    requires Ready(h, def)
    ensures TargetsAreSegments(h, idx, rows)
  {
    forall k | 0 <= k < |rows| && Target(h, idx, rows[k]).Some? ensures Target(h, idx, rows[k]).value in h.segments {
      TargetIsSegment(h, def, idx, rows[k]);
    }
  }
}
