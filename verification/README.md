# RadonDB, modelled and proved in Dafny

RadonDB is a proxy that spreads MySQL tables over backends. This project models the parts of it that are
hardest to get right and proves what they promise:

* **Joins across shards** (`Joins`, `JoinEngine`, `JoinExecution`): the sort-merge join with its concurrent
  workers and its row cap, the nested-loop join and the cartesian product compute one relation, the joined table
  of section 7.5 of SQL-92.
* **The join plan** (`PlanTree`, `BindVars`, `NestedRun`, `VarNames`): numbering the plan nodes, lowest common ancestors,
  column maps, bind variables and the order in which queries are built, up to the rows a nested-loop run returns.
* **Conditions and routing** (`Predicates`, `ShardRouting`, `HashPartition`, `Router`, `SlotLayout`): rewriting
  WHERE clauses without changing their three-valued meaning (sections 8.4 and 8.12 of SQL-92), choosing
  partitions from them, the slot map, moving a partition, laying out a new table.
* **A sharded table is one table** (`InsertPlan`, `ShardedTable`, `KeySpelling`, `ColocatedJoin`, `KeyTypes`): any list
  of INSERT, UPDATE and DELETE statements, and joins pushed down to the partitions.
* **Two-phase commit** (`XaModel`, `XaAtomicity`, `XaVisibility`, `RetryLog`, `XaRecovery`): a step system with lost
  commands, lost answers, broken connections, crashes and recovery. Participants follow section 13.3.7.2 (XA
  Transaction States) of the MySQL 5.7 Reference Manual.
* **Distributed ORDER BY/LIMIT, aggregates and streaming** (`TopN`, `OrderPlan`, `AggregatePlan`, `AggregateValues`,
  `Aggregates`, `GroupSelect`, `StreamFetch`).

`Bags`, `Text`, `Values` and `Sorting` hold what all of them use: sums of multisets, strings and numbers, SQL values, rows
and sorting.

## How the source is represented

* A value that is not NULL is its place in the comparison order (a real number), its boolean reading and its
  text. Values that compare equal need not be the same. Any total preorder on values can be laid out this way.
* `sort.Slice` is taken as a permutation in order, ties in any order. In the source the comparison functions
  return true on ties; no more than that is relied on.
* Objects whose methods update fields are classes: the hash partition, the catalog entry, the retry log, the
  sharded table, the limit plan, the results of joins and of ORDER BY, the join plan. Concurrency is either a
  schedule parameter (the join workers) or a step system over all interleavings (XA and streaming).
* Parameters stand for what is outside: the hash function, the answers of backends, the rows of shards, what an
  assignment or a stored row does to the columns, the result of a callback, whether a file can be written.
* A literal is its type and its text, and the hash function is any function of these two, as in the source. What
  value a literal stands for is a property of the table (`means`), and so is the slot of a key value (`slot`), of
  which only this is asked: it is a slot of the table, and equal values have equal slots. Nothing is asked of the
  slots of two tables together. Whether a literal hashes into the partition of the value it stands for
  (`ShardRouting.Spelled`), or is stored as (`ShardedTable.StoredHome`), is asked of the literals in the statement at
  hand, and only where it is needed.

## Where the code does not do what one would expect

Each is kept as the code has it, with the exact condition under which the expected property holds.

* An operator other than the seven comparisons (LIKE, REGEXP, ...) that reaches the cross-shard filter of a
  sort-merge join accepts every pair of values that are not NULL: `JoinExecution.FilterExact`,
  `JoinExecution.DroppedFilter`.
* `Build` of a hash partition counts slots and does not look where they lie, so a layout with a hole passes. Every
  slot has a segment exactly when no segment ends past the last slot: `HashPartition.EverySlotCovered`,
  `HashPartition.AcceptedWithHole`.
* `HashUniform` makes no partitions at all when a backend's share of the slots is smaller than a block, and divides
  by zero when the requested number of partitions leaves blocks of no slots: `SlotLayout.HashUniform`,
  `SlotLayout.NoPartitions`, `SlotLayout.DividesByZero`.
* OFFSET plus LIMIT is added in 64 bits. It is right exactly when the sum fits, and panics otherwise: `TopN.LimitPlan.Build`,
  `TopN.Limit`, `TopN.SumWraps`.
* A key that is written with another literal type hashes to another slot: after an INSERT of 1, a DELETE WHERE the key
  is '1' goes to another partition (`KeySpelling.MixedSpelling`). A point lookup reaches every row of its key if and
  only if its literal hashes into the partition of its value (`ShardRouting.PointReaches`); a clause that lists keys
  does if and only if each listed value has its partition among those of the listed literals
  (`ShardRouting.LookupFromWhere`, `ShardRouting.ExactlyFound`). Whenever it is not, rows are missed
  (`KeySpelling.MisspelledMisses`).
* A row goes to the partition of the literal, not of the key that is stored: 1.6 in an integer key goes to the
  partition of 1 and is stored as 2 (`KeySpelling.RoundedAway`). A row is stored at home if and only if its literal
  hashes into the partition of the stored key; where the two are equal, if and only if the literal hashes into the
  partition of its value (`ShardedTable.TargetIsHome`).
* Joins on the shard keys of tables laid out alike are pushed down without a look at the types of the keys. With 1 in
  an integer key and '1' in a string key, the joined row is lost (`KeyTypes.MixedTypes`). For given rows, joining by
  partition is joining the tables if and only if no two rows that meet the condition are in partitions that do not
  lie side by side (`ColocatedJoin.PushDownCorrect`, `ColocatedJoin.TablesJoined`); for all rows, if and only if equal
  keys belong to partitions that lie side by side (`ColocatedJoin.KeyJoinsExact`), as they do when both tables give
  each key value the same slot (`ColocatedJoin.SameSlotsAgree`).
* GROUP BY columns are found by name without their table, so GROUP BY t2.a may group by t1.a, and DISTINCT over both
  groups twice by one. GROUP BY over shards is right for all rows if and only if each GROUP BY expression is the same
  as the first plain expression of its name: `GroupSelect.GroupsExact`, `GroupSelect.OtherTableGrouped`,
  `GroupSelect.DistinctLosesRows`.
* ORDER BY columns are found in the answers by name. The column found is the one meant if and only if no earlier
  field has its name (`OrderPlan.FoundOwn`, `OrderPlan.AliasFound`). Sorting by the columns found is right for all rows
  if and only if they are the columns meant, where no column comes twice (`OrderPlan.SortsExactly`,
  `OrderPlan.OtherColumnWrong`, `OrderPlan.WrongRowKept`).
* GROUP BY with aggregates over no rows returns one row where SQL has none: `Aggregates.Aggregate`.
* An expression that is sent past a left join comes back NULL for a left row without partner, even if it is not NULL
  on NULLs; only function calls are refused. A field has its value on all combinations of rows if and only if, at each
  left join it is sent past, it is NULL when the right side's columns are: `NestedRun.FieldExact`,
  `NestedRun.ExpressionLost`.
* Fetching the field info of a nested-loop join hands its right side the variables from outside without the
  join's own. It finds all variables exactly when no leaf of that side mentions another leaf of it:
  `NestedRun.FieldQueryExact`, `NestedRun.FieldQueryFails`.
* Variable names join table and column with an underscore. They tell the columns in use apart if and only if no two
  are alike up to characters a name cannot have and no table name goes on, after an underscore, with the beginning of
  another's column (`VarNames.ApartExactly`; no underscore in a regular table name is enough,
  `VarNames.NoUnderscoreApart`). Wherever two clash, a query reads the value of the wrong column
  (`VarNames.ClashMisbinds`, `VarNames.NamesClash`).
* A counted-down try is not written to the retry file. A reload restores xids and decisions, and the number of tries
  if and only if none was counted since the file was last written (`RetryLog.ReloadRestores`,
  `RetryLog.TryForgotten`); so a decision is tried at most as often as it had tries for each start of the proxy
  (`RetryLog.DecisionNeverDropped`).
* A transaction is seen whole by every read as long as its own commit phase has not ended with an error
  (`XaVisibility.ReadsSeeWholeTransactions`); where a read may begin, it sees a transaction in part if and only if it
  is committed in part (`XaVisibility.ReadNow`), which happens (`XaVisibility.TornRead`).
* A cursor whose connection breaks looks like one at its end, and the select succeeds without its other rows. A
  cursor's rows are complete if and only if it was not cut: `StreamFetch.RowsConserved`, `StreamFetch.RowsLost`.

## Model

| member | source | states |
|---|---|---|
| `JoinEngine.PassesFilters` | src/executor/engine/merge_join.go:157-202 | the cross-shard comparisons, with operators, exchange and NULL handling, hold exactly when the residual condition does; operators the switch does not name let every non-NULL pair pass |
| `JoinEngine.AllTrue` | src/executor/engine/merge_join.go:146-153 | true exactly when every left temporary column reads as true |
| `JoinEngine.AllNull` | src/executor/engine/merge_join.go:205-211 | true exactly when every right temporary column is NULL |
| `JoinEngine.Deliver` | src/executor/engine/merge_join.go:212-224 | appends one joined row unless the error is set; the error is set by the row that exceeds the cap, and the count follows the rows |
| `JoinEngine.StepWorker` | src/executor/engine/merge_join.go:140-239 | one step of one worker delivers what it no longer has to deliver, and nothing once the error is set |
| `JoinEngine.ConcatLeftAndRight` | src/executor/engine/merge_join.go:136-248 | for every schedule of the workers of a group, the rows delivered are those of each left row with its partners, or alone in a left join; it fails only past the cap |
| `JoinEngine.ConcatLeftAndNil` | src/executor/engine/merge_join.go:250-261 | left rows without partner appear once each, exactly in a left join without right filter |
| `JoinEngine.KeysEqual` | src/executor/engine/merge_join.go:125-133 | true exactly when the rows compare equal in every key column |
| `JoinEngine.FetchSameKeyRows` | src/executor/engine/merge_join.go:100-122 | fetches a maximal run: all rows with the key of the first one, every later row above it |
| `JoinEngine.CompareRuns` | src/executor/engine/merge_join.go:63-74 | the sign of the key comparison, and whether two equal keys hold a NULL, which makes them not match |
| `JoinEngine.RunMatched` | src/executor/engine/merge_join.go:76-84 | when two runs match, each left row joins within the right run only |
| `JoinEngine.RunUnmatched` | src/executor/engine/merge_join.go:76-90 | a left run that matches no right row adds exactly its unmatched rows |
| `JoinEngine.JoinRuns` | src/executor/engine/merge_join.go:63-90 | joining two runs accounts for exactly the part of the joined table that passing them settles |
| `JoinEngine.MergeJoin` | src/executor/engine/merge_join.go:53-97 | on sorted inputs, terminates with the joined table or fails past the cap, for all schedules |
| `JoinExecution.SortMergeJoin` | src/executor/engine/merge_join.go:28-50 | on any inputs: fails exactly when the joined table exceeds the cap, else returns it as a multiset; the affected count is the row count |
| `JoinExecution.CartesianProduct` | src/executor/engine/join_engine.go:230-242 | the joined table of a condition that is always true, or failure exactly past the cap |
| `JoinExecution.LoopRow` | src/executor/engine/join_engine.go:108-151 | one left row of the nested loop adds exactly what the joined table has for it |
| `JoinExecution.ExecBindVars` | src/executor/engine/join_engine.go:96-164 | when the right side evaluates the condition for the bound left row, the nested loop returns the same joined table under the same cap |
| `JoinExecution.Execute` | src/executor/engine/join_engine.go:46-93 | the strategy switch with its empty-side shortcuts returns the joined table of the node's condition |
| `JoinExecution.KnownOperatorsExact` | src/executor/engine/merge_join.go:158-202 | with the seven comparison operators the computed condition is the SQL condition |
| `JoinExecution.FilterExact` | src/executor/engine/merge_join.go:163-201 | one filter joins exactly as SQL says for all rows if and only if its operator is one of the seven or accepts every non-NULL pair |
| `JoinExecution.DroppedFilter` | src/executor/engine/merge_join.go:163-201 | an operator outside the seven that rejects a pair joins that pair all the same |
| `JoinExecution.StrategiesAgree` | src/executor/engine/join_engine.go:46-150 | sort-merge and nested loop fail together, and otherwise return the same multiset of rows |
| `Joins.JoinPermutation` | src/executor/engine/merge_join.go:28-50 | the joined table does not depend on the order of either input, so sorting the inputs is harmless |
| `Joins.OneJoinWindow` | src/executor/engine/merge_join.go:76-90 | for one left row, right rows that do not match may be left out on either side |
| `PlanTree.ReOrderOrders` | src/planner/builder/join_node.go:822-827 | numbering makes the leaf orders strictly increase from left to right, above the start and below the parents |
| `PlanTree.FindNone` | src/planner/builder/plan_node.go:40-58 | the search finds nothing exactly when neither leaf is in the tree |
| `PlanTree.FindSplits` | src/planner/builder/plan_node.go:40-58 | for two leaves the node found is a join with the lower leaf on its left and the higher on its right |
| `PlanTree.SetNestKeeps` | src/planner/builder/join_node.go:361-369 | making a subtree nested-loop keeps everything a plan keeps, and leaves only nested-loop joins in it |
| `PlanTree.PushGrows` | src/planner/builder/join_node.go:637-671 | asking for a field appends it, returns its place, and adds exactly its columns to the texts below |
| `PlanTree.AskedAligned` | src/planner/builder/join_node.go:637-671 | column maps and fields stay aligned and in range when a child is asked for one more field |
| `PlanTree.PushKeeps` | src/planner/builder/join_node.go:637-671 | a field whose columns are in the node or left of it lands in a leaf that is right of all its columns, crossing joins become nested-loop, column maps stay aligned |
| `PlanTree.LastLeaf` | src/planner/builder/join_node.go:544-554 | of the leaves of a condition's tables, the one with the highest order |
| `PlanTree.WhereKeeps` | src/planner/builder/join_node.go:541-556 | a condition placed at that leaf mentions no column of a leaf to its right |
| `PlanTree.StepKeeps` | src/planner/builder/join_node.go:477-556 | any planning step at any node keeps all of this for the whole tree |
| `PlanTree.NumberedPlanned` | src/planner/builder/join_node.go:477-478 | planning starts with all of it |
| `BindVars.FirstPlace` | src/planner/builder/join_node.go:866-877 | the first field that is the column, compared without regard to case; none exactly when there is no such field |
| `BindVars.ProcureKeeps` | src/planner/builder/join_node.go:857-891 | after procuring a column its variable points at the column's place in the left rows, all earlier variables still point right, and the plan is kept |
| `BindVars.ProcureForKeeps` | src/planner/builder/merge_node.go:292-308 | procured at the lowest common ancestor, the column is bound on the way down to the leaf that needs it |
| `BindVars.ProcureForLeaf` | src/planner/builder/merge_node.go:292-308 | only the column's own leaf changes; no other leaf's text or query does, and no binding is lost |
| `BindVars.ForeignWanted` | src/planner/builder/merge_node.go:297-301 | a foreign column of a leaf always is of a leaf further left |
| `BindVars.BuildLeaf` | src/planner/builder/merge_node.go:282-338 | building one leaf's query binds each of its foreign columns and leaves the queries already built as they are |
| `BindVars.BuildQueries` | src/planner/builder/join_node.go:834-846 | with right sides first, every query is built from the final text of its leaf, and every variable it uses is bound above it |
| `NestedRun.BoundRight` | src/executor/engine/join_engine.go:117-123 | the combined variables give the right side the values of the current left row and of the outer rows, none overwritten |
| `NestedRun.RunReturns` | src/executor/engine/join_engine.go:96-216 | for every combination of rows, every node returns at each field's place the field's value, or NULL where it was asked of a missing side |
| `NestedRun.RunMeans` | src/executor/engine/join_engine.go:96-216 | for every combination of rows, a node returns the value of each field, computed with NULL for the columns of a missing side, if and only if each field asked of a missing side is NULL there; so it does for fields that are safe past every left join |
| `NestedRun.FieldExact` | src/planner/builder/join_node.go:644-649 | a field comes back with its value on all combinations if and only if, at each left join it is sent past, it is NULL when the right side's columns are |
| `NestedRun.ColumnSafe` | src/planner/builder/join_node.go:644-649 | plain columns always do |
| `NestedRun.ExpressionLost` | src/planner/builder/join_node.go:644-649 | an accepted expression over the right side of a left join that is 1 on NULLs, and is NULL in the row that the plan returns |
| `NestedRun.LeafBound` | src/executor/engine/join_engine.go:96-164 | every variable of a leaf's query is bound at run time to the value its column has in the current rows |
| `NestedRun.FieldQueryExact` | src/executor/engine/join_engine.go:167-187 | fetching field info finds all variables if and only if no leaf below mentions another leaf below |
| `NestedRun.FieldQueryFails` | src/executor/engine/join_engine.go:177-182 | a plan that runs right and whose field query misses a variable |
| `VarNames.ClashExactly` | src/planner/builder/join_node.go:861 | two columns get one variable name exactly when their names are alike or overlap at an underscore |
| `VarNames.ApartExactly` | src/planner/builder/join_node.go:861 | the names tell the columns in use apart if and only if no two are alike or overlap |
| `VarNames.NoUnderscoreApart` | src/vendor/github.com/xelabs/go-mysqlstack/sqlparser/ast_funcs.go:965-977 | regular names with no underscore in a table name are told apart |
| `VarNames.ClashMisbinds` | src/planner/builder/join_node.go:857-864 | for any two clashing columns there is a plan whose leaf reads, for the second, the value of the first |
| `VarNames.NamesClash` | src/planner/builder/join_node.go:857-864 | column c of a_b and column b_c of a do so |
| `NestedRun.JoinPlan.constructor` | src/planner/builder/join_node.go:477-478 | a plan starts numbered and valid |
| `NestedRun.JoinPlan.AskField` | src/planner/builder/join_node.go:605-671 | the place returned is where the field now is; on an error nothing has changed |
| `NestedRun.JoinPlan.SetNestLoop` | src/planner/builder/join_node.go:361-369 | the node and all joins below it are nested-loop |
| `NestedRun.JoinPlan.AddFilter` | src/planner/builder/join_node.go:541-556 | the condition is in the text of the leaf with the highest order among its tables, and the plan stays valid |
| `NestedRun.JoinPlan.BuildQuery` | src/planner/builder/join_node.go:834-891 | for every valid plan: whatever rows the leaves have, returned rows have each field's value at its place, or NULL where it was asked of a missing side, always the value for safe fields; no variable is missing |
| `Predicates.SplitMeaning` | src/planner/builder/expr.go:178-192 | the conjunction of the split conditions has the clause's truth value on every row |
| `Predicates.SkipMeaning` | src/planner/builder/expr.go:196-201 | dropping parentheses keeps the truth value |
| `Predicates.CheckColInMap` | src/planner/builder/expr.go:243-250 | finds the spelling a column already has in the map, in any iteration order |
| `Predicates.SplitOrExpression` | src/planner/builder/expr.go:205-240 | the map of equalities and the other conditions together mean the disjunction and list its literals |
| `Predicates.ConvertOrToIn` | src/planner/builder/expr.go:264-285 | same truth value on every row and the same literals listed for each column, for any map order; an OR of equalities of one column becomes a single non-empty IN |
| `Predicates.RewriteFilters` | src/planner/builder/expr.go:178-285 | the conjunction of the split, unparenthesised, converted conditions has the TRUE, FALSE or NULL value of the clause |
| `Predicates.ListedMeets` | src/planner/builder/expr.go:205-285 | a listed literal as the value of its column makes the condition TRUE |
| `HashPartition.ParsedFromZero` | src/router/hash.go:80-95 | a parsed segment starts at slot 0 or above and is not empty |
| `HashPartition.SlotMapUnique` | src/router/hash.go:106-112 | the slot map has, for a slot, exactly the segment that covers it |
| `HashPartition.EverySlotCovered` | src/router/hash.go:76-123 | once Build accepts, every slot is covered if and only if no segment ends past the last slot |
| `HashPartition.AcceptedWithHole` | src/router/hash.go:76-123 | an accepted configuration that leaves a slot without segment |
| `HashPartition.ParseSpan` | src/router/compute.go:93 | printing bounds and parsing them restores them |
| `HashPartition.Hash.MarkSlots` | src/router/hash.go:106-112 | marks a segment's slots, and fails exactly on overlap |
| `HashPartition.Hash.AddPartition` | src/router/hash.go:80-116 | one more partition parsed, checked and marked, or the reason Build must fail |
| `HashPartition.Hash.Build` | src/router/hash.go:76-123 | succeeds exactly on configurations that parse, do not overlap and have as many slots as the table |
| `Router.GetSegments` | src/router/router.go:360-389 | all segments without slots; else the segments of the slots, each once, in order of first mention; an error exactly for a slot outside the table |
| `Router.SegmentsOfSlots` | src/router/router.go:369-388 | a segment is returned if and only if it holds one of the slots |
| `Router.PointLookup` | src/router/hash.go:135-155 | a point lookup returns the one segment that covers the key's slot |
| `Router.ShiftMovesOnlyThatPartition` | src/router/api.go:75-148 | after the backend of one partition changed, Build accepts again and only that partition's slots moved |
| `Router.HashTable.ChangeTheRuleBackend` | src/router/api.go:75-148 | changes the first matching partition, and takes the change back when it cannot be written |
| `Router.HashTable.PartitionRuleShift` | src/router/api.go:51-72 | succeeds exactly when there is such a partition and the file can be written; then the slots of that partition have the new backend and no others changed |
| `SlotLayout.TilesSound` | src/router/compute.go:76-98 | a tiling is disjoint, non-empty, inside the slots and of the full size |
| `SlotLayout.NamesDiffer` | src/router/compute.go:90-92 | partitions of a table have different names |
| `SlotLayout.LayoutAccepted` | src/router/hash.go:76-123 | a printed tiling is accepted by Build and leaves no slot uncovered |
| `SlotLayout.BoundsFit` | src/router/compute.go:80-89 | each partition is non-empty and begins where the one before it ends, the last one taking what is over |
| `SlotLayout.LayShard` | src/router/compute.go:79-97 | the partitions of one backend continue the tiling and the numbering |
| `SlotLayout.LayShards` | src/router/compute.go:76-98 | the partitions of all backends tile the slots, if and only if a share holds a block |
| `SlotLayout.HashUniform` | src/router/compute.go:28-100 | which inputs are refused; the result is accepted by Build exactly when a share holds a block, and then tiles the slots, numbered and spread over the sorted backends |
| `SlotLayout.NoPartitions` | src/router/compute.go:62-98 | eight partitions on sixteen backends: no partition at all |
| `SlotLayout.DividesByZero` | src/router/compute.go:62-98 | more partitions than slots: division by zero |
| `ShardRouting.HomeExists` | src/router/hash.go:135-155 | every row with a key has one partition, whose segment covers the key's slot |
| `ShardRouting.PointReaches` | src/planner/builder/expr.go:139-145 | for an equality of the key, the literal's partition holds every row the clause is TRUE for if and only if the literal hashes into the partition of its value |
| `ShardRouting.WithinReaches` | src/planner/builder/expr.go:139-163 | segments with the partitions of all listed values hold every row the clause is TRUE for |
| `ShardRouting.ReachesWithin` | src/planner/builder/expr.go:139-163 | and only those do |
| `ShardRouting.ExactlyFound` | src/planner/builder/expr.go:126-168 | for a clause that only lists keys: the partitions of the literals hold every row if and only if each listed value has its partition among them |
| `ShardRouting.IndexesOf` | src/planner/builder/expr.go:149-160 | the slots of a list of literals, an error for one that cannot be hashed, none when an element is not a literal |
| `ShardRouting.RouteByFilter` | src/planner/builder/expr.go:130-164 | one condition: the partitions are exactly those the listed keys hash into, no row is left out when these are the partitions of the keys' values, errors only for a listed key that cannot be hashed, and which conditions decide at all |
| `ShardRouting.LookupFromWhere` | src/planner/builder/expr.go:126-168 | partitions of the table, none twice, that hold every row the clause is TRUE for when its keys hash into the partitions of their values; for a clause that only lists keys, exactly when each listed value has its partition among those of the literals; exactly the partitions of the listed keys when a condition that lists keys decides |
| `InsertPlan.ShardKeyIndex` | src/planner/insert_plan.go:123-133 | the first column that is the shard key, in any case, if there is one |
| `InsertPlan.TargetIsSegment` | src/planner/insert_plan.go:147-161 | a row's target is the segment of the table that covers its key's slot |
| `InsertPlan.GroupRows` | src/planner/insert_plan.go:144-173 | fails exactly when some row has no target; else each table has its rows in statement order |
| `InsertPlan.SortedTables` | src/planner/insert_plan.go:175-180 | the tables with rows, in strictly increasing order |
| `InsertPlan.Build` | src/planner/insert_plan.go:123-194 | exactly when it fails; else every row is in the one query of its partition, on that partition's backend, tables in increasing order |
| `ShardedTable.ApplyPermutation` | src/planner/update_plan.go:79-121 | what a statement does to a table and how many rows it affects do not depend on row order |
| `ShardedTable.OthersUnhit` | src/planner/builder/expr.go:126-168 | partitions that were not chosen have no row the statement hits |
| `ShardedTable.RanOnAll` | src/planner/update_plan.go:103-119 | running on the chosen partitions is running on the whole table |
| `ShardedTable.StaysPlaced` | src/planner/update_plan.go:97-100 | a statement that keeps shard keys keeps every row in the partition of its key |
| `ShardedTable.AffectsAll` | src/planner/update_plan.go:103-119 | the chosen partitions affect as many rows as the whole table would |
| `ShardedTable.TargetIsHome` | src/planner/insert_plan.go:147-161 | what is stored for a row is at home in the partition it was sent to if and only if its literal hashes into the partition of the stored key; when that is equal to the literal, if and only if the literal hashes into the partition of its value |
| `ShardedTable.SpelledHome` | src/planner/insert_plan.go:147-161 | rows whose keys are stored as they are meant, with literals that hash into the partitions of their values, are sent home |
| `ShardedTable.InsertConserves` | src/planner/insert_plan.go:144-193 | no row of an INSERT is lost or stored twice |
| `ShardedTable.IsUpdateShardKey` | src/planner/common.go:34-43 | true exactly when an assigned column is the shard key |
| `ShardedTable.PlanUpdate` | src/planner/update_plan.go:66-121 | refused exactly for a subquery, a missing WHERE, an assigned shard key or an unroutable condition; else goes to partitions that hold every row concerned when the keys of the clause hash into the partitions of their values |
| `ShardedTable.PlanDelete` | src/planner/delete_plan.go:106-141 | everywhere without WHERE, else as the WHERE clause routes |
| `ShardedTable.Sharded.constructor` | src/planner/insert_plan.go:67-198 | an empty table is valid |
| `ShardedTable.Sharded.RunChange` | src/planner/update_plan.go:103-119 | the one table changes as the statement says, with the affected count of an unsharded table, and every row stays in the partition of its key |
| `ShardedTable.Sharded.Insert` | src/planner/insert_plan.go:67-198 | succeeds exactly when the plan does; the one table gains exactly the stored rows |
| `ShardedTable.Sharded.Update` | src/planner/update_plan.go:79-121 | the one table after the UPDATE, or unchanged when it is refused |
| `ShardedTable.Sharded.Delete` | src/planner/delete_plan.go:84-141 | the one table after the DELETE, or unchanged when it cannot be routed |
| `ShardedTable.Sharded.Run` | src/planner/insert_plan.go:67-198 | after any list of statements whose keys hash into the partitions of the values they stand for or are stored as, the partitions hold the rows one table would hold, each in the partition of its key |
| `KeySpelling.MisspelledMisses` | src/router/hash.go:163-184 | for any table and any key that does not hash into the partition of its value: a DELETE of that key has a row to delete, and the partition it goes to has none |
| `KeySpelling.IntegersSpelled` | src/router/hash.go:163-184 | in a table whose keys hash by their integer value, integer literals always hash into the partition of their value |
| `KeySpelling.MixedSpelling` | src/router/hash.go:163-184 | INSERT of key 1, then DELETE of key '1': the row meets the condition and is not deleted |
| `KeySpelling.RoundedAway` | src/router/hash.go:174-179 | INSERT of 1.6 into an integer key: sent to the partition of 1, stored as 2, which belongs to the other partition |
| `ColocatedJoin.IsSameShard` | src/planner/builder/from.go:278-299 | true exactly when both columns are shard keys and the partitions agree in segment and backend |
| `ColocatedJoin.SameSlots` | src/planner/builder/from.go:288-298 | tables with the same partitions have the same number of slots |
| `ColocatedJoin.SegmentsAligned` | src/planner/builder/merge_node.go:144-174 | their segment lists lie side by side: same slots, same backend |
| `ColocatedJoin.CalcRoute` | src/planner/builder/merge_node.go:144-174 | for any slots, the i-th segments of both tables hold the same slots on the same backend |
| `ColocatedJoin.PushDownCorrect` | src/planner/builder/from.go:211-225 | for given rows of the tables and any condition, inner or left, the union of the partition-wise joins is the join with the whole right table if and only if no two rows that meet the condition are in partitions that do not lie side by side |
| `ColocatedJoin.TablesJoined` | src/planner/builder/from.go:211-225 | the same for two sharded tables and the tables their users see |
| `ColocatedJoin.MisplacedLost` | src/planner/builder/from.go:278-299 | any two rows that meet the condition and belong to partitions that do not lie side by side are lost in a join of two one-row tables |
| `ColocatedJoin.PushDownExact` | src/planner/builder/from.go:211-225 | for any condition, pushing the join down is right for all rows if and only if rows that meet it belong to partitions that lie side by side |
| `ColocatedJoin.KeyJoinsExact` | src/planner/builder/from.go:278-299 | joins on the shard keys may all be pushed down if and only if equal key values of the two tables belong to partitions that lie side by side |
| `ColocatedJoin.SameSlotsAgree` | src/router/hash.go:163-184 | so they do when both tables give each key value the same slot |
| `KeyTypes.MixedTypes` | src/planner/builder/from.go:278-299 | an integer and a string key, tables laid out alike: accepted as same shards, and the joined row of 1 and '1' is lost |
| `XaAtomicity.StepKeepsOk` | src/backend/xa.go:66-170 | every step of every driver, backend and failure keeps each transaction's commands, answers and branches consistent |
| `XaAtomicity.RunOk` | src/proxy/execute.go:52-104 | so does every run of the single- and multi-statement drivers |
| `XaAtomicity.CommitOnlyAfterAllPrepared` | src/backend/txn.go:286-310 | XA COMMIT is sent only after every participant acknowledged XA PREPARE earlier in the run |
| `XaAtomicity.NeverBothDecisions` | src/backend/xa.go:225-261 | XA COMMIT and XA ROLLBACK are never both sent for one xid, recovery included |
| `XaAtomicity.Atomic` | src/backend/txn.go:286-416 | no reachable state has one branch committed and another rolled back |
| `XaAtomicity.DecisionKept` | src/backend/xa.go:225-261 | a decided transaction that is over has every branch at the decision, or has submitted the decision to the retry log |
| `XaAtomicity.RecycledConnectionsAreClean` | src/backend/txn.go:732-781 | a connection that goes back to the pool has no open branch |
| `XaVisibility.NothingCommits` | src/backend/xa.go:137-169 | no step commits a branch of a transaction that does not hold the commit lock and whose commit phase has not ended with an error |
| `XaVisibility.LockKept` | src/backend/txnmgr.go:88-106 | the lock is held exactly during a COMMIT or ROLLBACK phase, never together with a read |
| `XaVisibility.RunVisibilityOk` | src/backend/txn.go:435-462 | for each transaction, what reads have seen of it stays whole over every run as long as its own commit phase has not ended with an error |
| `XaVisibility.ReadsSeeWholeTransactions` | src/backend/txn.go:435-462 | in every interleaving, a read sees a transaction whose own commit phase has not ended with an error on all shards they share or on none |
| `XaVisibility.ReadNow` | src/backend/txn.go:435-462 | wherever a read may begin, it sees a transaction on one shard and not on the other if and only if it is committed on the one and not on the other, and then its commit phase has ended with an error |
| `XaVisibility.TornRead` | src/backend/xa.go:137-169 | a run in which the commit phase reaches one shard, fails on the other, and a read sees the one and not the other |
| `RetryLog.NeedIsComplete` | src/backend/xacheck.go:203-223 | every backend that lists the xid is among those to resend to |
| `RetryLog.XaCheck.AddXaCommitErrLog` | src/backend/xacheck.go:122-133 | a new xid is added, a known one is refused |
| `RetryLog.XaCheck.FlushXaCommitErrLog` | src/backend/xacheck.go:136-152 | the file then has exactly the xids and decisions of memory |
| `RetryLog.XaCheck.WriteXaCommitErrLog` | src/backend/xacheck.go:155-180 | a successful write leaves the decision in memory and in the file |
| `RetryLog.XaCheck.CommitRetryBackends` | src/backend/xacheck.go:183-264 | done exactly when the scan went over all backends and each listing backend acknowledged |
| `RetryLog.XaCheck.RetryOne` | src/backend/xacheck.go:275-288 | an entry leaves when delivered, or to the list of given-up entries when out of tries, else loses one try |
| `RetryLog.XaCheck.XaCommitsRetryMain` | src/backend/xacheck.go:268-291 | a round treats every entry, or stops at an error with the rest untouched |
| `RetryLog.XaCheck.LoadXaCommitErrLogs` | src/backend/xacheck.go:327-359 | loads exactly the entries of the file |
| `RetryLog.ReloadRestores` | src/backend/xacheck.go:327-359 | a restart finds the same xids with the same decisions, and more tries by those counted since the file was last written: the same number exactly when none was |
| `RetryLog.TryForgotten` | src/backend/xacheck.go:242-264 | a decision logged, one try used up, a restart: the try is there again |
| `RetryLog.DecisionNeverDropped` | src/backend/xacheck.go:268-303 | over every run of writes, rounds and restarts a logged decision stays, was delivered to all backends that listed it, or was written to the given-up file; it stays for at most as many error-free rounds since the last restart as it had tries, and in all for that many for each start |
| `XaRecovery.ScanDelivers` | src/backend/xacheck.go:203-245 | in every run: an error-free scan, each backend answering at its own moment after the decision, whose resends were all acknowledged leaves no branch prepared |
| `XaRecovery.UnpreparedStays` | src/backend/xa.go:137-169 | with the decision made, a branch that is not prepared never will be |
| `XaRecovery.DeliveredIsDone` | src/backend/xacheck.go:275-288 | in every run, once the retry log has delivered a decision no branch is prepared from then on; all are committed with a decision to commit, none with a decision to roll back |
| `TopN.LimitPlan.Build` | src/planner/builder/limit_plan.go:75-103 | which clauses are refused; the rewritten count is the 64-bit sum, which is the sum exactly when that fits |
| `TopN.SumWraps` | src/planner/builder/limit_plan.go:101 | offset 1 with the largest count asks the shards for a negative number of rows, and cutting the answers panics |
| `TopN.Limit` | src/vendor/github.com/xelabs/go-mysqlstack/sqlparser/depends/sqltypes/limit.go:11-22 | the clamped window, and the panic exactly when the sum wraps |
| `TopN.Locate` | src/executor/engine/operator/orderby_operator.go:57-67 | for each order the first field of its name and table, or an order without field |
| `TopN.TopRows` | src/planner/builder/limit_plan.go:101 | the sorted answers of shards that each kept their first n rows begin with the first n of all rows in some sorted order |
| `TopN.Result.Order` | src/executor/engine/operator/orderby_operator.go:41-82 | the rows become a sorted permutation, with the sort-only columns dropped; fails only for a missing field |
| `TopN.Result.Cut` | src/executor/engine/operator/limit_operator.go:37-42 | the rows become the window of the clause |
| `TopN.MergeSorted` | src/planner/builder/merge_node.go:246-257 | for any shards, orders and directions, the window of the shards' answers sorted by the columns located; when these are the columns the shards sort by, the window of all rows in some sorted order; panics exactly when the numbers do not fit |
| `OrderPlan.Analyze` | src/planner/builder/orderby_plan.go:62-119 | each order is made from the first select expression it can mean, or from a column added to sort by; the added columns are those to remove; refused only for an expression that is no column, of an unknown table, or ambiguous |
| `OrderPlan.FoundOwn` | src/executor/engine/operator/orderby_operator.go:57-67 | the column found by name is the expression that is meant if and only if no earlier field has its name, and table if one was written |
| `OrderPlan.SortSelect` | src/executor/engine/operator/orderby_operator.go:41-82 | the window of the answers sorted by the columns found; when no earlier field has a name of an order, the window of all rows sorted by the columns the clause means |
| `OrderPlan.OtherColumnWrong` | src/executor/engine/operator/orderby_operator.go:57-67 | where the columns found and meant first differ, in columns that do not come before, two one-row shards and LIMIT 1 give the wrong row |
| `OrderPlan.SortsExactly` | src/executor/engine/operator/orderby_operator.go:57-67 | without repeated columns, sorting by the columns found is right for all rows if and only if they are the columns meant |
| `OrderPlan.AliasFound` | src/executor/engine/operator/orderby_operator.go:57-67 | SELECT b AS a, a ... ORDER BY t.a means the second column and finds the first |
| `OrderPlan.WrongRowKept` | src/executor/engine/operator/orderby_operator.go:57-67 | that select with LIMIT 1 over two shards returns the wrong row |
| `AggregatePlan.ExpandedAt` | src/planner/builder/aggregate_plan.go:103-118 | each select expression is at its column of the rewritten list, an average as its sum and its count |
| `AggregatePlan.AggrsReadOwn` | src/planner/builder/aggregate_plan.go:102-113 | every aggregate's index names its own column |
| `AggregatePlan.RewriteOne` | src/planner/builder/aggregate_plan.go:102-118 | the list with one aggregate rewritten in place, the columns behind an average moved on by one |
| `AggregatePlan.Rewrite` | src/planner/builder/aggregate_plan.go:73-119 | one pass gives the rewritten list, the aggregates and the plain columns, or fails on an unsupported expression |
| `AggregatePlan.Analyze` | src/planner/builder/aggregate_plan.go:69-137 | the rewritten list, the aggregates, and for each GROUP BY expression the column of the first plain expression of its name; fails exactly on an unsupported expression or a GROUP BY name no plain expression has |
| `AggregatePlan.CheckGroupBy` | src/planner/builder/project.go:321-363 | the first select expression each GROUP BY column means, by alias or by column and table; fails exactly for an expression that is no column, an unknown table or one that is not selected |
| `AggregatePlan.CheckDistinct` | src/planner/builder/project.go:383-430 | DISTINCT without GROUP BY groups by all expressions; fails exactly for * and for an expression without alias that is no column |
| `AggregatePlan.OwnColumn` | src/planner/builder/aggregate_plan.go:121-137 | the index of a GROUP BY expression is its own column if and only if it is plain and no plain expression before it has its name |
| `AggregateValues.ExtremeIsExtreme` | src/vendor/github.com/xelabs/go-mysqlstack/sqlparser/depends/sqltypes/arithmetic.go:165-192 | MIN and MAX are one of the values with none beyond, NULL when there is none |
| `AggregateValues.InitIs` | src/vendor/github.com/xelabs/go-mysqlstack/sqlparser/depends/sqltypes/aggregation.go:74-94 | what is kept after the first row stands for that row's values |
| `AggregateValues.UpdateIs` | src/vendor/github.com/xelabs/go-mysqlstack/sqlparser/depends/sqltypes/aggregation.go:163-206 | what is kept after one more row stands for all values so far |
| `AggregateValues.ResultIs` | src/vendor/github.com/xelabs/go-mysqlstack/sqlparser/depends/sqltypes/aggregation.go:209-235 | the result is the SQL aggregate of the values |
| `AggregateValues.AverageIs` | src/vendor/github.com/xelabs/go-mysqlstack/sqlparser/depends/sqltypes/aggregation.go:254-260 | sums and counts of shards divide to the average over all of them |
| `AggregateValues.NoRowsIs` | src/vendor/github.com/xelabs/go-mysqlstack/sqlparser/depends/sqltypes/aggregation.go:74-94 | without rows everything is right but a pushed-down count |
| `Aggregates.KeysEqual` | src/executor/engine/operator/aggregate_operator.go:127-135 | true exactly when the keys agree, NULL with NULL |
| `Aggregates.Collect` | src/executor/engine/operator/aggregate_operator.go:88-108 | on sorted rows, adjacent grouping makes groups with strictly increasing keys that together have all members |
| `Aggregates.GetResults` | src/vendor/github.com/xelabs/go-mysqlstack/sqlparser/depends/sqltypes/aggregation.go:248-268 | every aggregate is in its column, plain columns are untouched, and exactly the count columns of averages are to be dropped |
| `Aggregates.Removed` | src/executor/engine/operator/aggregate_operator.go:123-124 | after dropping them each expression is at its own place in the select list, and columns behind the list follow |
| `Aggregates.NoRows` | src/executor/engine/operator/aggregate_operator.go:118-122 | one row for no rows, right without GROUP BY |
| `Aggregates.NotGroupBy` | src/executor/engine/operator/aggregate_operator.go:118-122 | with GROUP BY a row for no rows is wrong |
| `Aggregates.Aggregate` | src/executor/engine/operator/aggregate_operator.go:53-125 | the result is GROUP BY over all rows behind the input, one row for each key with the aggregates of exactly its rows, if and only if there is something to group |
| `Aggregates.MergeShards` | src/executor/engine/operator/aggregate_operator.go:53-125 | merging partial results of shards gives GROUP BY over the union of their rows |
| `GroupSelect.PlanCarriesOut` | src/planner/builder/aggregate_plan.go:69-137 | the plan of the analysis is the plan of the query that groups by the first plain expressions of the GROUP BY names |
| `GroupSelect.GroupSelect` | src/executor/engine/operator/aggregate_operator.go:53-125 | planned, answered by the shards and merged, a select gives what SQL means when each GROUP BY expression is the first of its name; refused exactly when the analysis refuses it |
| `GroupSelect.SingleIsPart` | src/planner/builder/merge_node.go:207-212 | a group of one row is an answer to any grouping of the same expressions |
| `GroupSelect.GroupsExact` | src/planner/builder/aggregate_plan.go:121-137 | merging by the plan is right for all rows if and only if each GROUP BY expression is the same as the first plain expression of its name |
| `GroupSelect.OtherTableGrouped` | src/planner/builder/aggregate_plan.go:121-137 | SELECT t1.a, t2.a, COUNT(*) ... GROUP BY t2.a is grouped wrong |
| `GroupSelect.DistinctLosesRows` | src/planner/builder/project.go:408-429 | SELECT DISTINCT t1.a, t2.a is grouped wrong |
| `StreamFetch.StepKeeps` | src/backend/txn.go:609-689 | every step of every goroutine keeps rows, channel and counters consistent |
| `StreamFetch.ClosedOnceNeverSentOn` | src/backend/txn.go:611-642 | in every run the row channel is closed at most once and never sent on afterwards |
| `StreamFetch.RowsConserved` | src/backend/txn.go:609-696 | in every run that succeeds the batches concatenate to the rows received, of each cursor a first part in order; a cursor's rows are complete if and only if its connection did not break, and the final count is that of all rows if and only if none broke |
| `StreamFetch.RowsLost` | src/vendor/github.com/xelabs/go-mysqlstack/driver/rows.go:86-104 | a shard whose connection breaks before its rows: the select succeeds without them |
| `StreamFetch.BatchesJustFull` | src/backend/txn.go:661-677 | every batch but the last is full with its last row and not before |
| `StreamFetch.RunsEnd` | src/backend/txn.go:609-690 | no run is longer than the work there is |
| `StreamFetch.NoDeadlock` | src/backend/txn.go:612-690 | a run cannot go on exactly when all goroutines have returned, after a callback error too |
| `Values.RowComparePreorder` | src/executor/engine/operator/orderby_operator.go:46-79 | comparing by any columns and directions is a total preorder |
| `Sorting.Sort` | src/executor/engine/merge_join.go:31-47 | a permutation in order |
| `Text.AtoiItoa` | src/router/compute.go:93 | decimal printing and parsing are inverse within 64 bits |

## Left out

- Plan nodes are values in `PlanTree`; parent pointers and aliasing between nodes are not captured. Building queries visits the leaves from right to left instead of recursing over the nodes.
- Merging plan nodes that route to one backend (`pushEqualCmprs`, `calcRoute` of join nodes), ORDER BY keys pushed for sort-merge, and key filters copied to the other side of a join: they change plans, and whole plans are not claimed to be equivalent.
- The choice between sort-merge and nested loop (`judgeStrategy`): any choice that is nested-loop where a right side mentions the left is covered.
- LIST, GLOBAL and single tables: routing and joins are modelled for HASH tables.
- INSERT ... ON DUPLICATE KEY UPDATE and REPLACE, and UPDATE or DELETE with ORDER BY or LIMIT: the source applies them partition by partition.
- SELECT routing by `fetchIndex`: it collects the same slots that `ColocatedJoin.CalcRoute` takes as given.
- JoinExecution.Execute: takes the children's results as given; a failing child is not modelled, and the nested-loop branch is `JoinExecution.ExecBindVars`, which runs its right side itself.
- AggregatePlan.CheckGroupBy: the shortcut that returns no groups when the shard key is among the columns is left out.
- AggregatePlan.CheckDistinct: the same shortcut is left out.
- OrderPlan.SortSelect: select lists with `*` are not covered, since the fields of the answers are not known from the list.
- TopN.Result.Order: reports a missing field as soon as there are two rows; the source reports it when a comparison reaches that field.
- LIMIT together with GROUP BY, where the limit is not pushed down.
- DISTINCT inside aggregates and UNION; pushing GROUP BY down alone when the shard key is among its columns.
- AggregateValues.UpdateIs: arithmetic is exact; rounding, overflow and the text of numbers are not modelled.
- Plain select expressions that GROUP BY does not name: SQL leaves their value open, and so does the model.
- The jump hash and CRC64, SQL parsing and printing, the MySQL protocol, pools, timeouts, logging, metrics and privileges.
- XA on a single backend, where the source skips XA and the lock, and manual XA commands of an administrator.
- XaRecovery.DeliveredIsDone: for a decision to roll back, branches that were never prepared are not claimed to be closed; XA RECOVER does not list them, and they end when their connection does.
- The retry of a failed XA command within one phase is a repeated Send step; its delays and its limit are not modelled.
- StreamFetch.NoDeadlock: cursors that never return from reading are not modelled.
