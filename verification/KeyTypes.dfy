/** Two tables laid out alike whose shard keys have different types: their equal keys are in different partitions, and a
    join that is pushed down loses rows. */
module KeyTypes {
  import opened Text
  import opened Bags
  import opened Values
  import opened HashPartition
  import opened ShardRouting
  import opened ShardedTable
  import opened KeySpelling
  import opened ColocatedJoin
  import Joins

  /** String keys have the slots that string literals hash to. */
  function StringSlot(v: Value): (slot: int) {
    if v.Val? then (v.rank.Floor + 1) % 2 else 0
  }

  /** A table with a string key. */
  const Words: TableDef := Table("s", StringSlot)

  /** String keys are always written right in it. */
  lemma StringsSpelled(h: Hash, l: Literal)
    requires h.hash == ByKind && l.kind == StrVal
    ensures Spelled(h, Words, l)
  {
    assert Words.slot(Words.means(l)) == (NumberOf(l.text) + 1) % 2;
  }

  /** A table with a string key and its row of the key '1'. */
  method WordsWithOne(quoted: Literal) returns (t: Sharded)
    requires IsQuotedOne(quoted)
    ensures fresh(t) && fresh(t.h) && t.def == Words && t.Valid() && InHalves(t.h, Words) && t.h.conf == Halves("s_0", "s_1")
    ensures t.logical == [[NumberValue(1)]]
  {
    assert "s_0"[2] != "s_1"[2];
    var h := BuildHalves("s_0", "s_1", "s", StringSlot);
    OneMeans(quoted);
    StringsSpelled(h, quoted);
    t := InsertKey(h, "s", StringSlot, quoted);
  }

  lemma KeysApart(left: Sharded, right: Sharded)
    requires InHalves(left.h, Numbers) && InHalves(right.h, Words)
    ensures !SamePlace(HomeOf(left.h, Numbers, NumberValue(1)), HomeOf(right.h, Words, NumberValue(1)))
  {
    SlotHasSegment(left.h, Numbers, 1);
    SlotHasSegment(right.h, Words, 0);
    CoversOne(left.h, SegmentAt(left.h, 1));
  }

  lemma OneInLogical(t: Sharded, r: Row)
    requires t.Valid() && t.logical == [r]
    ensures exists s | s in t.h.segments :: r in RowsOf(t.parts, s.table)
  {
    SameMembers(t.logical, Flat(t.h.segments, t.parts), r);
    var i := FlatElement(t.h.segments, t.parts, r);
    assert t.h.segments[i] in t.h.segments;
  }

  lemma NotBeside(left: Sharded, right: Sharded, r: Row)
    requires left.Valid() && right.Valid() && left.def == Numbers && right.def == Words && InHalves(left.h, Numbers) && InHalves(right.h, Words)
    requires left.logical == [r] && right.logical == [r] && r == [NumberValue(1)]
    ensures !PartnersBeside(KeyEqual(Numbers, Words), left.h.segments, left.parts, right.h.segments, right.parts)
  {
    OneInLogical(left, r);
    OneInLogical(right, r);
    var s :| s in left.h.segments && r in RowsOf(left.parts, s.table);
    var t :| t in right.h.segments && r in RowsOf(right.parts, t.table);
    assert AtHome(left.h, Numbers, s, r) && AtHome(right.h, Words, t, r);
    KeysApart(left, right);
    assert KeyEqual(Numbers, Words)(r, r);
  }

  /** The join on the shard keys has one row; joined partition by partition, it is not there. */
  lemma RowLost(left: Sharded, right: Sharded, r: Row)
    requires left.Valid() && right.Valid() && left.def == Numbers && right.def == Words && InHalves(left.h, Numbers) && InHalves(right.h, Words)
    requires left.logical == [r] && right.logical == [r] && r == [NumberValue(1)] && SamePartitions(left.h.conf, right.h.conf)
    ensures |left.h.segments| == |right.h.segments|
    ensures (r, Joins.ARow(r)) in Join(KeyEqual(Numbers, Words), false, [r], [r])
    ensures JoinBySegment(KeyEqual(Numbers, Words), false, left.h.segments, left.parts, right.h.segments, right.parts)
         != Join(KeyEqual(Numbers, Words), false, [r], [r])
  {
    NotBeside(left, right, r);
    TablesJoined(KeyEqual(Numbers, Words), false, left, right);
    JoinPairs(KeyEqual(Numbers, Words), false, [r], [r], r, r);
  }

  method SameShard(lconf: seq<PartitionConfig>, rconf: seq<PartitionConfig>) returns (same: bool)
    requires lconf == Halves("t_0", "t_1") && rconf == Halves("s_0", "s_1")
    ensures same && SamePartitions(lconf, rconf)
  {
    assert EqualFold("id", "id") && "id" != "";
    same := IsSameShard("id", "id", lconf, "id", "id", rconf);
  }

  /** INSERT of 1 into the one and of '1' into the other. Their join on the shard keys is taken for one of tables with the
      same shards, and pushed down it loses its row. */
  method MixedTypes(one: Literal, quoted: Literal) returns (left: Sharded, right: Sharded, same: bool)
    requires IsOne(one) && IsQuotedOne(quoted)
    ensures left.Valid() && right.Valid() && left.def == Numbers && right.def == Words && left.logical == right.logical == [[NumberValue(1)]]
    ensures same && |left.h.segments| == |right.h.segments|
    ensures ([NumberValue(1)], Joins.ARow([NumberValue(1)])) in Join(KeyEqual(Numbers, Words), false, left.logical, right.logical)
    ensures JoinBySegment(KeyEqual(Numbers, Words), false, left.h.segments, left.parts, right.h.segments, right.parts)
         != Join(KeyEqual(Numbers, Words), false, left.logical, right.logical)
  {
    left := NumbersWithOne(one);
    right := WordsWithOne(quoted);
    same := SameShard(left.h.conf, right.h.conf);
    RowLost(left, right, [NumberValue(1)]);
  }
}
