/** Splitting the rows of an INSERT over the partitions of a hash table. */
module InsertPlan {
  import opened Text
  import opened Bags
  import opened Values
  import opened Sorting
  import opened HashPartition
  import opened Router
  import opened Predicates
  import opened ShardRouting

  /** The INSERT sent to one partition table. */
  datatype InsertQuery = InsertQuery(table: string, backend: string, rows: seq<seq<Expr>>)

  datatype Group = Group(backend: string, rows: seq<seq<Expr>>)

  /** The first column that is the shard key. */
  method ShardKeyIndex(columns: seq<string>, shardKey: string) returns (idx: Option<nat>)
    ensures idx.Some? ==> idx.value < |columns| && EqualFold(columns[idx.value], shardKey)
    ensures idx.Some? ==> forall k | 0 <= k < idx.value :: !EqualFold(columns[k], shardKey)
    ensures idx.None? ==> forall k | 0 <= k < |columns| :: !EqualFold(columns[k], shardKey)
  {
    for i := 0 to |columns|
      invariant forall k | 0 <= k < i :: !EqualFold(columns[k], shardKey)
    {
      if EqualFold(columns[i], shardKey) {
        return Some(i);
      }
    }
    return None;
  }

  /** The partition of a row's key; none when the row is too short, the key is not a literal or it
      cannot be hashed. */
  function Target(h: Hash, idx: nat, row: seq<Expr>): (s: Option<Segment>)
    reads h
  {
    if idx >= |row| || !row[idx].SQLVal? then None
    else
      var segs := h.Lookup(Some(row[idx].val), Some(row[idx].val));
      if segs.None? then None else Some(segs.value[0])
  }

  predicate GoesTo(h: Hash, idx: nat, row: seq<Expr>, table: string)
    reads h
  {
    Target(h, idx, row).Some? && Target(h, idx, row).value.table == table
  }

  /** The rows for a partition table, in the order of the statement. */
  function RowsFor(h: Hash, idx: nat, rows: seq<seq<Expr>>, table: string): (r: seq<seq<Expr>>)
    reads h
  {
    if rows == [] then []
    else
      var n := |rows| - 1;
      RowsFor(h, idx, rows[..n], table) + if GoesTo(h, idx, rows[n], table) then [rows[n]] else []
  }

  ghost predicate AllTargeted(h: Hash, idx: nat, rows: seq<seq<Expr>>)
    reads h
  {
    forall k | 0 <= k < |rows| :: Target(h, idx, rows[k]).Some?
  }

  ghost predicate TargetsAreSegments(h: Hash, idx: nat, rows: seq<seq<Expr>>)
    reads h
  {
    forall k | 0 <= k < |rows| && Target(h, idx, rows[k]).Some? :: Target(h, idx, rows[k]).value in h.segments
  }

  /** The target of a row is the segment of the table that holds its key. */
  lemma TargetIsSegment(h: Hash, def: TableDef, idx: nat, row: seq<Expr>)
    requires Ready(h, def) && Target(h, idx, row).Some?
    ensures Target(h, idx, row).value in h.segments
    ensures h.hash(row[idx].val).Some? && Covers(Target(h, idx, row).value, h.hash(row[idx].val).value)
  {
    PointLookup(h, row[idx].val);
    SegmentsAreParsed(h, Target(h, idx, row).value);
  }

  /** The rows collected so far for a partition table; tables without rows are not in the map. */
  ghost predicate GroupIs(h: Hash, idx: nat, rows: seq<seq<Expr>>, groups: map<string, Group>, t: string)
    reads h
  {
    if t in groups then
      groups[t].rows != [] && groups[t].rows == RowsFor(h, idx, rows, t) && HasSegment(h, t, groups[t].backend)
    else
      RowsFor(h, idx, rows, t) == []
  }

  ghost predicate Grouped(h: Hash, idx: nat, rows: seq<seq<Expr>>, groups: map<string, Group>)
    reads h
  {
    forall t :: GroupIs(h, idx, rows, groups, t)
  }

  ghost predicate HasSegment(h: Hash, table: string, backend: string)
    reads h
  {
    exists s | s in h.segments :: s.table == table && s.backend == backend
  }

  function WithRow(groups: map<string, Group>, s: Segment, row: seq<Expr>): (after: map<string, Group>) {
    var group := if s.table in groups then groups[s.table] else Group(s.backend, []);
    groups[s.table := group.(rows := group.rows + [row])]
  }

  lemma RowsForStep(h: Hash, idx: nat, rows: seq<seq<Expr>>, row: seq<Expr>, t: string)
    ensures RowsFor(h, idx, rows + [row], t) == RowsFor(h, idx, rows, t) + if GoesTo(h, idx, row, t) then [row] else []
  {
    assert (rows + [row])[..|rows|] == rows;
  }

  lemma GroupStep(h: Hash, idx: nat, rows: seq<seq<Expr>>, row: seq<Expr>, groups: map<string, Group>, t: string)
    requires GroupIs(h, idx, rows, groups, t) && Target(h, idx, row).Some? && Target(h, idx, row).value in h.segments
    ensures GroupIs(h, idx, rows + [row], WithRow(groups, Target(h, idx, row).value, row), t)
  {
    RowsForStep(h, idx, rows, row, t);
  }

  lemma GroupedStep(h: Hash, idx: nat, rows: seq<seq<Expr>>, row: seq<Expr>, groups: map<string, Group>)
    requires Grouped(h, idx, rows, groups) && Target(h, idx, row).Some? && Target(h, idx, row).value in h.segments
    ensures Grouped(h, idx, rows + [row], WithRow(groups, Target(h, idx, row).value, row))
  {
    forall t ensures GroupIs(h, idx, rows + [row], WithRow(groups, Target(h, idx, row).value, row), t) {
      GroupStep(h, idx, rows, row, groups, t);
    }
  }

  /** Puts each row into the group of its partition table. */
  method GroupRows(h: Hash, idx: nat, rows: seq<seq<Expr>>) returns (groups: Option<map<string, Group>>)
    requires TargetsAreSegments(h, idx, rows)
    ensures groups.Some? <==> AllTargeted(h, idx, rows)
    ensures groups.Some? ==> Grouped(h, idx, rows, groups.value)
  {
    var gs: map<string, Group> := map[];
    for i := 0 to |rows|
      invariant forall k | 0 <= k < i :: Target(h, idx, rows[k]).Some?
      invariant Grouped(h, idx, rows[..i], gs)
    {
      var target := Target(h, idx, rows[i]);
      if target.None? {
        return None;
      }
      TakeOneMore(rows, i);
      GroupedStep(h, idx, rows[..i], rows[i], gs);
      gs := WithRow(gs, target.value, rows[i]);
    }
    assert rows[..|rows|] == rows;
    return Some(gs);
  }

  predicate NoDuplicates(s: seq<string>) {
    forall i, j | 0 <= i < j < |s| :: s[i] != s[j]
  }

  predicate Increasing(s: seq<string>) {
    forall i, j | 0 <= i < j < |s| :: CompareStrings(s[i], s[j]) < 0
  }

  lemma {:induction false} MultiplicityOne(s: seq<string>, x: string)
    requires NoDuplicates(s)
    ensures multiset(s)[x] <= 1
  {
    if s != [] {
      var n := |s| - 1;
      MultiplicityOne(s[..n], x);
      assert s == s[..n] + [s[n]];
      assert s[n] !in s[..n];
    }
  }

  lemma SortedIncreasing(s: seq<string>, t: seq<string>)
    requires NoDuplicates(s) && multiset(t) == multiset(s) && Sorted(t, CompareStrings)
    ensures Increasing(t)
  {
    forall i, j | 0 <= i < j < |t| ensures CompareStrings(t[i], t[j]) < 0 {
      if CompareStrings(t[i], t[j]) == 0 {
        CompareEqual(t[i], t[j]);
        TwiceInBag(t, i, j);
        MultiplicityOne(s, t[i]);
      }
    }
  }

  /** The partition tables with rows, in increasing order. */
  method SortedTables(groups: map<string, Group>) returns (tables: seq<string>)
    ensures Increasing(tables)
    ensures forall t :: t in tables <==> t in groups
  {
    var names: seq<string> := [];
    var keys := groups.Keys;
    while keys != {}
      invariant keys <= groups.Keys && NoDuplicates(names)
      invariant forall t :: t in names <==> t in groups && t !in keys
      decreases keys
    {
      var t :| t in keys;
      names := names + [t];
      keys := keys - {t};
    }
    StringPreorder();
    tables := Sort(names, CompareStrings);
    SortedIncreasing(names, tables);
    forall t ensures t in tables <==> t in groups {
      assert t in tables <==> t in multiset(tables);
      assert t in names <==> t in multiset(names);
    }
  }

  /** Partition tables in increasing order, each with its rows of the statement and its backend, and
      no row of the statement without a query. */
  ghost predicate Planned(h: Hash, idx: nat, rows: seq<seq<Expr>>, qs: seq<InsertQuery>)
    reads h
  {
    && (forall i, j | 0 <= i < j < |qs| :: CompareStrings(qs[i].table, qs[j].table) < 0)
    && (forall i | 0 <= i < |qs| :: qs[i].rows != [] && qs[i].rows == RowsFor(h, idx, rows, qs[i].table))
    && (forall i | 0 <= i < |qs| :: HasSegment(h, qs[i].table, qs[i].backend))
    && (forall t | RowsFor(h, idx, rows, t) != [] :: exists i | 0 <= i < |qs| :: qs[i].table == t)
  }

  /** Plans the INSERT into a hash table: fails exactly when the shard key is not among the columns or
      some row has no partition; otherwise every row goes to the partition of its key, once. */
  method Build(h: Hash, def: TableDef, columns: seq<string>, rows: seq<seq<Expr>>) returns (idx: Option<nat>, r: Option<seq<InsertQuery>>)
    requires Ready(h, def)
    ensures idx.Some? ==> idx.value < |columns| && EqualFold(columns[idx.value], def.shardKey)
    ensures idx.Some? ==> forall k | 0 <= k < idx.value :: !EqualFold(columns[k], def.shardKey)
    ensures idx.None? <==> forall k | 0 <= k < |columns| :: !EqualFold(columns[k], def.shardKey)
    ensures r.Some? <==> idx.Some? && AllTargeted(h, idx.value, rows)
    ensures r.Some? ==> Planned(h, idx.value, rows, r.value)
  {
    idx := ShardKeyIndex(columns, def.shardKey);
    if idx.None? {
      return idx, None;
    }
    forall k | 0 <= k < |rows| && Target(h, idx.value, rows[k]).Some? ensures Target(h, idx.value, rows[k]).value in h.segments {
      TargetIsSegment(h, def, idx.value, rows[k]);
    }
    var groups := GroupRows(h, idx.value, rows);
    if groups.None? {
      return idx, None;
    }
    var qs := Queries(h, idx.value, rows, groups.value);
    return idx, Some(qs);
  }

  method Emit(groups: map<string, Group>, tables: seq<string>) returns (qs: seq<InsertQuery>)
    requires forall t | t in tables :: t in groups
    ensures Emitted(groups, tables, qs)
  {
    qs := [];
    for i := 0 to |tables|
      invariant |qs| == i
      invariant forall k | 0 <= k < i :: QueryIs(groups, tables[k], qs[k])
    {
      var v := groups[tables[i]];
      qs := qs + [InsertQuery(tables[i], v.backend, v.rows)];
    }
  }

  predicate QueryIs(groups: map<string, Group>, table: string, q: InsertQuery) {
    table in groups && q == InsertQuery(table, groups[table].backend, groups[table].rows)
  }

  ghost predicate Emitted(groups: map<string, Group>, tables: seq<string>, qs: seq<InsertQuery>) {
    |qs| == |tables| && forall k | 0 <= k < |qs| :: QueryIs(groups, tables[k], qs[k])
  }

  /** The queries of the groups, by partition table in increasing order. */
  method Queries(h: Hash, idx: nat, rows: seq<seq<Expr>>, groups: map<string, Group>) returns (qs: seq<InsertQuery>)
    requires Grouped(h, idx, rows, groups)
    ensures Planned(h, idx, rows, qs)
  {
    var tables := SortedTables(groups);
    qs := Emit(groups, tables);
    QueriesPlanned(h, idx, rows, groups, tables, qs);
  }

  lemma QueriesPlanned(h: Hash, idx: nat, rows: seq<seq<Expr>>, groups: map<string, Group>, tables: seq<string>, qs: seq<InsertQuery>)
    requires Grouped(h, idx, rows, groups) && Increasing(tables) && forall t :: t in tables <==> t in groups
    requires Emitted(groups, tables, qs)
    ensures Planned(h, idx, rows, qs)
  {
    forall i | 0 <= i < |qs|
      ensures qs[i].rows != [] && qs[i].rows == RowsFor(h, idx, rows, qs[i].table) && HasSegment(h, qs[i].table, qs[i].backend)
    {
      assert QueryIs(groups, tables[i], qs[i]) && GroupIs(h, idx, rows, groups, tables[i]);
    }
    forall t | RowsFor(h, idx, rows, t) != [] ensures exists i | 0 <= i < |qs| :: qs[i].table == t {
      assert GroupIs(h, idx, rows, groups, t) && t in tables;
      var i :| 0 <= i < |tables| && tables[i] == t;
      assert QueryIs(groups, tables[i], qs[i]);
    }
    forall i, j | 0 <= i < j < |qs| ensures CompareStrings(qs[i].table, qs[j].table) < 0 {
      assert QueryIs(groups, tables[i], qs[i]) && QueryIs(groups, tables[j], qs[j]);
    }
  }
}
