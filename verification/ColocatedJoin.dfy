/** Joining two hash tables partition by partition, where their partitions hold the same slots. */
module ColocatedJoin {
  import opened Text
  import opened Bags
  import opened Values
  import opened Sorting
  import opened HashPartition
  import opened Router
  import opened ShardRouting
  import opened ShardedTable
  import Joins

  // ---------------------------------------------------------------- the join, on any condition

  type Condition = (Row, Row) -> bool

  /** What a left row adds to the joined table: its partners, or itself alone in a left join. */
  function RowJoin(on: Condition, outer: bool, l: Row, right: seq<Row>): (b: multiset<(Row, Joins.MaybeRow)>) {
    Joins.OneJoin((r: Row) => on(l, r), Partner(on, l), if outer then multiset{(l, Joins.NoRow)} else multiset{}, right)
  }

  function Partner(on: Condition, l: Row): (add: Row -> multiset<(Row, Joins.MaybeRow)>) {
    (r: Row) => if on(l, r) then multiset{(l, Joins.ARow(r))} else multiset{}
  }

  /** The joined table, as section 7.5 of SQL-92 has it for inner and left joins. */
  function Join(on: Condition, outer: bool, left: seq<Row>, right: seq<Row>): (b: multiset<(Row, Joins.MaybeRow)>) {
    Sum(left, (l: Row) => RowJoin(on, outer, l, right))
  }

  /** Right rows that do not match a left row may be dropped for it. */
  lemma RowJoinWindow(on: Condition, outer: bool, l: Row, before: seq<Row>, right: seq<Row>, after: seq<Row>)
    requires forall r | r in before || r in after :: !on(l, r)
    ensures RowJoin(on, outer, l, before + right + after) == RowJoin(on, outer, l, right)
  {
    Joins.OneJoinWindow((r: Row) => on(l, r), Partner(on, l), if outer then multiset{(l, Joins.NoRow)} else multiset{}, before, right, after);
  }

  // ---------------------------------------------------------------- tables with the same shards

  /** Same slots on the same backend. */
  predicate SamePlace(s: Segment, t: Segment) {
    s.start == t.start && s.end == t.end && s.backend == t.backend
  }

  predicate Aligned(a: seq<Segment>, b: seq<Segment>) {
    |a| == |b| && forall i | 0 <= i < |a| :: SamePlace(a[i], b[i])
  }

  predicate SamePartitions(lconf: seq<PartitionConfig>, rconf: seq<PartitionConfig>) {
    && |lconf| == |rconf|
    && forall i | 0 <= i < |lconf| :: lconf[i].segment == rconf[i].segment && lconf[i].backend == rconf[i].backend
  }

  /** Whether a condition `left column = right column` is between the shard keys of tables that have
      the same slots on the same backends. */
  method IsSameShard(leftCol: string, leftKey: string, lconf: seq<PartitionConfig>,
                     rightCol: string, rightKey: string, rconf: seq<PartitionConfig>)
    returns (same: bool)
    ensures same <==> (&& leftKey != "" && EqualFold(leftCol, leftKey)
                       && rightKey != "" && EqualFold(rightCol, rightKey)
                       && SamePartitions(lconf, rconf))
  {
    if leftKey == "" || !EqualFold(leftCol, leftKey) {
      return false;
    }
    if rightKey == "" || !EqualFold(rightCol, rightKey) {
      return false;
    }
    if |lconf| != |rconf| {
      return false;
    }
    for i := 0 to |lconf|
      invariant forall k | 0 <= k < i :: lconf[k].segment == rconf[k].segment && lconf[k].backend == rconf[k].backend
    {
      if lconf[i].segment != rconf[i].segment || lconf[i].backend != rconf[i].backend {
        return false;
      }
    }
    return true;
  }

  lemma ParsedAligned(lconf: seq<PartitionConfig>, rconf: seq<PartitionConfig>)
    requires SamePartitions(lconf, rconf) && AllParse(lconf)
    ensures AllParse(rconf) && Aligned(Parsed(lconf), Parsed(rconf))
  {
    forall i | 0 <= i < |lconf|
      ensures ParseSegment(rconf[i]).Some? && SamePlace(ParseSegment(lconf[i]).value, ParseSegment(rconf[i]).value)
    {
    }
  }

  lemma {:induction false} SizeAligned(a: seq<Segment>, b: seq<Segment>)
    requires Aligned(a, b)
    ensures TotalSize(a) == TotalSize(b)
    decreases |a|
  {
    if a != [] {
      SizeAligned(a[..|a| - 1], b[..|b| - 1]);
    }
  }

  /** Tables with the same partitions have the same number of slots. */
  lemma SameSlots(lh: Hash, rh: Hash)
    requires lh.Built() && rh.Built() && SamePartitions(lh.conf, rh.conf)
    ensures lh.slots == rh.slots
  {
    ParsedAligned(lh.conf, rh.conf);
    SizeAligned(Parsed(lh.conf), Parsed(rh.conf));
  }

  predicate StrictlyFrom(segs: seq<Segment>) {
    forall i, j | 0 <= i < j < |segs| :: segs[i].start < segs[j].start
  }

  /** Every segment of `a` has a counterpart in `b`. */
  predicate Matched(a: seq<Segment>, b: seq<Segment>) {
    forall s | s in a :: exists t | t in b :: SamePlace(s, t)
  }

  /** Two lists in slot order with the same segments are aligned. */
  lemma {:induction false} OrderAligns(a: seq<Segment>, b: seq<Segment>)
    requires StrictlyFrom(a) && StrictlyFrom(b) && Matched(a, b) && Matched(b, a)
    ensures Aligned(a, b)
    decreases |a|
  {
    if a == [] || b == [] {
      if a != [] {
        NoneMatched(a);
      }
      if b != [] {
        NoneMatched(b);
      }
    } else {
      LowStart(a, b);
      LowStart(b, a);
      HeadsAlign(a, b);
      TailMatched(a, b);
      TailMatched(b, a);
      OrderAligns(a[1..], b[1..]);
      assert a == [a[0]] + a[1..] && b == [b[0]] + b[1..];
    }
  }

  lemma NoneMatched(a: seq<Segment>)
    requires a != []
    ensures !Matched(a, [])
  {
    assert a[0] in a;
  }

  lemma LowStart(a: seq<Segment>, b: seq<Segment>)
    requires a != [] && b != [] && StrictlyFrom(b) && Matched(a, b)
    ensures b[0].start <= a[0].start
  {
    assert a[0] in a;
    var t :| t in b && SamePlace(a[0], t);
    var j :| 0 <= j < |b| && b[j] == t;
  }

  lemma HeadsAlign(a: seq<Segment>, b: seq<Segment>)
    requires a != [] && b != [] && StrictlyFrom(b) && Matched(a, b) && a[0].start == b[0].start
    ensures SamePlace(a[0], b[0])
  {
    assert a[0] in a;
    var t :| t in b && SamePlace(a[0], t);
    var j :| 0 <= j < |b| && b[j] == t;
  }

  lemma TailMatched(a: seq<Segment>, b: seq<Segment>)
    requires a != [] && b != [] && StrictlyFrom(a) && SamePlace(a[0], b[0]) && Matched(a, b)
    ensures Matched(a[1..], b[1..]) && StrictlyFrom(a[1..])
  {
    forall s | s in a[1..] ensures exists t | t in b[1..] :: SamePlace(s, t) {
      var i :| 0 <= i < |a[1..]| && a[1..][i] == s;
      assert s == a[i + 1] && s in a;
      var t :| t in b && SamePlace(s, t);
      var j :| 0 <= j < |b| && b[j] == t;
      assert j > 0 && t == b[1..][j - 1];
    }
  }

  lemma AlignedMatched(a: seq<Segment>, b: seq<Segment>, a': seq<Segment>, b': seq<Segment>)
    requires Aligned(a, b) && multiset(a) == multiset(a') && multiset(b) == multiset(b')
    ensures Matched(a', b') && Matched(b', a')
  {
    forall s | s in a' ensures exists t | t in b' :: SamePlace(s, t) {
      SameMembers(a, a', s);
      var i :| 0 <= i < |a| && a[i] == s;
      SameMembers(b, b', b[i]);
      assert b[i] in b' && SamePlace(s, b[i]);
    }
    forall t | t in b' ensures exists s | s in a' :: SamePlace(t, s) {
      SameMembers(b, b', t);
      var i :| 0 <= i < |b| && b[i] == t;
      SameMembers(a, a', a[i]);
      assert a[i] in a' && SamePlace(t, a[i]);
    }
  }

  lemma SegmentsInOrder(h: Hash)
    requires h.Built()
    ensures StrictlyFrom(h.segments)
  {
    BuiltDistinct(h);
    var segs := h.segments;
    forall i, j | 0 <= i < j < |segs| ensures segs[i].start < segs[j].start {
      assert CompareStart(segs[i], segs[j]) <= 0;
      if segs[i].start == segs[j].start {
        SegmentsAreParsed(h, segs[i]);
        SegmentsAreParsed(h, segs[j]);
        SameStartSameSegment(Parsed(h.conf), segs[i], segs[j]);
      }
    }
  }

  lemma SameStartSameSegment(segs: seq<Segment>, s: Segment, t: Segment)
    requires Disjoint(segs) && NonEmpty(segs) && s in segs && t in segs && s.start == t.start
    ensures s == t
  {
    var i :| 0 <= i < |segs| && segs[i] == s;
    var j :| 0 <= j < |segs| && segs[j] == t;
    assert Covers(s, s.start) && Covers(t, s.start);
    SlotMapUnique(segs, i, s.start);
    SlotMapUnique(segs, j, s.start);
  }

  /** The segments of the two tables, as the router lists them, lie side by side. */
  lemma SegmentsAligned(lh: Hash, rh: Hash)
    requires lh.Built() && rh.Built() && SamePartitions(lh.conf, rh.conf)
    ensures Aligned(lh.segments, rh.segments)
  {
    ParsedAligned(lh.conf, rh.conf);
    AlignedMatched(Parsed(lh.conf), Parsed(rh.conf), lh.segments, rh.segments);
    SegmentsInOrder(lh);
    SegmentsInOrder(rh);
    OrderAligns(lh.segments, rh.segments);
  }

  lemma {:induction false} FirstsAligned(a: seq<Segment>, b: seq<Segment>)
    requires Aligned(a, b)
    ensures Aligned(Firsts(a), Firsts(b))
    decreases |a|
  {
    if a != [] {
      var n := |a| - 1;
      FirstsAligned(a[..n], b[..n]);
      SameRangeAligned(Firsts(a[..n]), Firsts(b[..n]), a[n], b[n]);
    }
  }

  lemma SameRangeAligned(a: seq<Segment>, b: seq<Segment>, s: Segment, t: Segment)
    requires Aligned(a, b) && SamePlace(s, t)
    ensures SameRange(a, s) == SameRange(b, t)
  {
    if SameRange(a, s) {
      var k :| 0 <= k < |a| && a[k].start == s.start && a[k].end == s.end;
      assert SamePlace(a[k], b[k]);
    }
    if SameRange(b, t) {
      var k :| 0 <= k < |b| && b[k].start == t.start && b[k].end == t.end;
      assert SamePlace(a[k], b[k]);
    }
  }

  lemma SlotAligned(lh: Hash, rh: Hash, i: int)
    requires lh.Built() && rh.Built() && SamePartitions(lh.conf, rh.conf)
    ensures i in lh.partitions <==> i in rh.partitions
    ensures i in lh.partitions ==> SamePlace(lh.partitions[i], rh.partitions[i])
  {
    ParsedAligned(lh.conf, rh.conf);
    var a, b := Parsed(lh.conf), Parsed(rh.conf);
    SlotMapCovers(a, i);
    SlotMapCovers(b, i);
    if i in lh.partitions {
      var k :| 0 <= k < |a| && Covers(a[k], i);
      assert SamePlace(a[k], b[k]);
      SlotMapUnique(a, k, i);
      SlotMapUnique(b, k, i);
    }
    if i in rh.partitions {
      var k :| 0 <= k < |b| && Covers(b[k], i);
      assert SamePlace(a[k], b[k]);
      SlotMapUnique(a, k, i);
    }
  }

  /** The routes of a merged node: for each table its segments for the same slots. The i-th segments
      hold the same slots on the same backend. */
  method CalcRoute(lh: Hash, rh: Hash, indexes: seq<int>) returns (r: Option<(seq<Segment>, seq<Segment>)>)
    requires lh.Built() && rh.Built() && SamePartitions(lh.conf, rh.conf)
    ensures r.None? <==> exists k | 0 <= k < |indexes| :: !(0 <= indexes[k] < lh.slots)
    ensures r.Some? ==> Aligned(r.value.0, r.value.1)
    ensures r.Some? && indexes == [] ==> r.value == (lh.segments, rh.segments)
    ensures r.Some? && indexes != [] ==> r.value.0 == Firsts(BySlot(lh.partitions, indexes))
  {
    SameSlots(lh, rh);
    var lsegs := GetSegments(lh, indexes);
    if lsegs.None? {
      return None;
    }
    var rsegs := GetSegments(rh, indexes);
    if indexes == [] {
      SegmentsAligned(lh, rh);
    } else {
      forall k | 0 <= k < |indexes| ensures SamePlace(BySlot(lh.partitions, indexes)[k], BySlot(rh.partitions, indexes)[k]) {
        SlotAligned(lh, rh, indexes[k]);
      }
      FirstsAligned(BySlot(lh.partitions, indexes), BySlot(rh.partitions, indexes));
    }
    return Some((lsegs.value, rsegs.value));
  }

  // ---------------------------------------------------------------- the joined partitions

  /** The union of the joins of the i-th segments. */
  function JoinBySegment(on: Condition, outer: bool, lsegs: seq<Segment>, lparts: Parts, rsegs: seq<Segment>, rparts: Parts)
    : (b: multiset<(Row, Joins.MaybeRow)>)
    requires |lsegs| == |rsegs|
  {
    if lsegs == [] then multiset{}
    else
      var n := |lsegs| - 1;
      JoinBySegment(on, outer, lsegs[..n], lparts, rsegs[..n], rparts)
      + Join(on, outer, RowsOf(lparts, lsegs[n].table), RowsOf(rparts, rsegs[n].table))
  }

  // ---------------------------------------------------------------- which rows a join pairs

  lemma RowPairs(on: Condition, outer: bool, k: Row, right: seq<Row>, l: Row, r: Row)
    ensures (l, Joins.ARow(r)) in RowJoin(on, outer, k, right) <==> k == l && r in right && on(l, r)
  {
    InSum(right, Partner(on, k), (l, Joins.ARow(r)));
    if k == l && r in right && on(l, r) {
      assert (l, Joins.ARow(r)) in Partner(on, k)(r);
    }
  }

  /** Two rows are joined exactly when they are in the tables and meet the condition. */
  lemma JoinPairs(on: Condition, outer: bool, left: seq<Row>, right: seq<Row>, l: Row, r: Row)
    ensures (l, Joins.ARow(r)) in Join(on, outer, left, right) <==> l in left && r in right && on(l, r)
  {
    InSum(left, (k: Row) => RowJoin(on, outer, k, right), (l, Joins.ARow(r)));
    forall k ensures (l, Joins.ARow(r)) in RowJoin(on, outer, k, right) <==> k == l && r in right && on(l, r) {
      RowPairs(on, outer, k, right, l, r);
    }
  }

  /** The two rows are in the i-th segments. */
  predicate PairAt(lsegs: seq<Segment>, lparts: Parts, rsegs: seq<Segment>, rparts: Parts, l: Row, r: Row, i: nat) {
    i < |lsegs| && i < |rsegs| && l in RowsOf(lparts, lsegs[i].table) && r in RowsOf(rparts, rsegs[i].table)
  }

  /** Joined segment by segment, two rows meet only in segments that lie side by side. */
  lemma {:induction false} SegmentPairs(on: Condition, outer: bool, lsegs: seq<Segment>, lparts: Parts, rsegs: seq<Segment>, rparts: Parts, l: Row, r: Row)
    requires |lsegs| == |rsegs| && (l, Joins.ARow(r)) in JoinBySegment(on, outer, lsegs, lparts, rsegs, rparts)
    ensures exists i :: PairAt(lsegs, lparts, rsegs, rparts, l, r, i)
    decreases |lsegs|
  {
    var n := |lsegs| - 1;
    if (l, Joins.ARow(r)) in JoinBySegment(on, outer, lsegs[..n], lparts, rsegs[..n], rparts) {
      SegmentPairs(on, outer, lsegs[..n], lparts, rsegs[..n], rparts, l, r);
      var i: nat :| PairAt(lsegs[..n], lparts, rsegs[..n], rparts, l, r, i);
      assert PairAt(lsegs, lparts, rsegs, rparts, l, r, i);
    } else {
      JoinPairs(on, outer, RowsOf(lparts, lsegs[n].table), RowsOf(rparts, rsegs[n].table), l, r);
      assert PairAt(lsegs, lparts, rsegs, rparts, l, r, n);
    }
  }

  lemma {:induction false} FlatElement(segs: seq<Segment>, parts: Parts, x: Row) returns (i: nat)
    requires x in Flat(segs, parts)
    ensures i < |segs| && x in RowsOf(parts, segs[i].table)
    decreases |segs|
  {
    var n := |segs| - 1;
    if x in RowsOf(parts, segs[n].table) {
      i := n;
    } else {
      i := FlatElement(segs[..n], parts, x);
    }
  }

  lemma FlatSplit(segs: seq<Segment>, k: nat, parts: Parts)
    requires k < |segs|
    ensures Flat(segs, parts) == Flat(segs[..k], parts) + RowsOf(parts, segs[k].table) + Flat(segs[k + 1..], parts)
  {
    assert segs == segs[..k + 1] + segs[k + 1..] && segs[..k + 1][..k] == segs[..k];
    FlatAppend(segs[..k + 1], segs[k + 1..], parts);
  }

  /** Rows that meet the condition are in segments that lie side by side. */
  ghost predicate PartnersBeside(on: Condition, lsegs: seq<Segment>, lparts: Parts, rsegs: seq<Segment>, rparts: Parts) {
    forall s, l, t, r | s in lsegs && l in RowsOf(lparts, s.table) && t in rsegs && r in RowsOf(rparts, t.table) && on(l, r) :: SamePlace(s, t)
  }

  lemma OnePlace(h: Hash, s: Segment, j: nat, k: nat)
    requires h.Built() && j < |h.segments| && k < |h.segments| && SamePlace(s, h.segments[j]) && SamePlace(s, h.segments[k])
    ensures j == k
  {
    SegmentsInOrder(h);
  }

  lemma RowJoinLocal(on: Condition, outer: bool, lsegs: seq<Segment>, lparts: Parts, rh: Hash, rparts: Parts, s: Segment, k: nat, l: Row)
    requires rh.Built() && PartnersBeside(on, lsegs, lparts, rh.segments, rparts)
    requires s in lsegs && l in RowsOf(lparts, s.table) && k < |rh.segments| && SamePlace(s, rh.segments[k])
    ensures RowJoin(on, outer, l, Flat(rh.segments, rparts)) == RowJoin(on, outer, l, RowsOf(rparts, rh.segments[k].table))
  {
    var segs := rh.segments;
    FlatSplit(segs, k, rparts);
    forall r | r in Flat(segs[..k], rparts) || r in Flat(segs[k + 1..], rparts) ensures !on(l, r) {
      var j := Elsewhere(segs, k, rparts, r);
      if on(l, r) {
        assert SamePlace(s, segs[j]);
        OnePlace(rh, s, j, k);
      }
    }
    RowJoinWindow(on, outer, l, Flat(segs[..k], rparts), RowsOf(rparts, segs[k].table), Flat(segs[k + 1..], rparts));
  }

  /** A row before or after the k-th segment is in another segment. */
  lemma Elsewhere(segs: seq<Segment>, k: nat, parts: Parts, r: Row) returns (j: nat)
    requires k < |segs| && (r in Flat(segs[..k], parts) || r in Flat(segs[k + 1..], parts))
    ensures j < |segs| && j != k && r in RowsOf(parts, segs[j].table)
  {
    if r in Flat(segs[..k], parts) {
      j := FlatElement(segs[..k], parts, r);
    } else {
      var i := FlatElement(segs[k + 1..], parts, r);
      j := k + 1 + i;
    }
  }

  /** The i-th segments joined give every joined row of the left segment with the whole right table. */
  lemma SegmentJoin(on: Condition, outer: bool, lsegs: seq<Segment>, lparts: Parts, rh: Hash, rparts: Parts, s: Segment, t: Segment)
    requires rh.Built() && PartnersBeside(on, lsegs, lparts, rh.segments, rparts)
    requires s in lsegs && t in rh.segments && SamePlace(s, t)
    ensures Join(on, outer, RowsOf(lparts, s.table), RowsOf(rparts, t.table))
         == Join(on, outer, RowsOf(lparts, s.table), Flat(rh.segments, rparts))
  {
    var k: nat :| k < |rh.segments| && rh.segments[k] == t;
    var rows, all, mine := RowsOf(lparts, s.table), Flat(rh.segments, rparts), RowsOf(rparts, t.table);
    forall l | l in rows ensures RowJoin(on, outer, l, all) == RowJoin(on, outer, l, mine) {
      RowJoinLocal(on, outer, lsegs, lparts, rh, rparts, s, k, l);
    }
    SumPointwise(rows, (l: Row) => RowJoin(on, outer, l, all), (l: Row) => RowJoin(on, outer, l, mine));
  }

  /** For the left segment, the right segment is as good as all right rows. */
  ghost predicate JoinsLocally(on: Condition, outer: bool, s: Segment, lparts: Parts, t: Segment, rparts: Parts, all: seq<Row>) {
    Join(on, outer, RowsOf(lparts, s.table), RowsOf(rparts, t.table)) == Join(on, outer, RowsOf(lparts, s.table), all)
  }

  lemma {:induction false} UnionOfLocal(on: Condition, outer: bool, lsegs: seq<Segment>, lparts: Parts, rsegs: seq<Segment>, rparts: Parts, all: seq<Row>)
    requires |lsegs| == |rsegs| && forall i | 0 <= i < |lsegs| :: JoinsLocally(on, outer, lsegs[i], lparts, rsegs[i], rparts, all)
    ensures JoinBySegment(on, outer, lsegs, lparts, rsegs, rparts) == Join(on, outer, Flat(lsegs, lparts), all)
    decreases |lsegs|
  {
    if lsegs != [] {
      var n := |lsegs| - 1;
      UnionOfLocal(on, outer, lsegs[..n], lparts, rsegs[..n], rparts, all);
      assert JoinsLocally(on, outer, lsegs[n], lparts, rsegs[n], rparts, all);
      JoinAppend(on, outer, Flat(lsegs[..n], lparts), RowsOf(lparts, lsegs[n].table), all);
    }
  }

  lemma JoinAppend(on: Condition, outer: bool, left: seq<Row>, more: seq<Row>, right: seq<Row>)
    ensures Join(on, outer, left + more, right) == Join(on, outer, left, right) + Join(on, outer, more, right)
  {
    SumAppend(left, more, (l: Row) => RowJoin(on, outer, l, right));
  }

  lemma {:induction false} InFlat(segs: seq<Segment>, parts: Parts, s: Segment, x: Row)
    requires s in segs && x in RowsOf(parts, s.table)
    ensures x in Flat(segs, parts)
    decreases |segs|
  {
    var n := |segs| - 1;
    if s != segs[n] {
      InFlat(segs[..n], parts, s, x);
    }
  }

  lemma JoinedBeside(on: Condition, outer: bool, lh: Hash, ldef: TableDef, lparts: Parts, lsegs: seq<Segment>,
                     rh: Hash, rdef: TableDef, rparts: Parts, rsegs: seq<Segment>, s: Segment, l: Row, t: Segment, r: Row)
    requires Placed(lh, ldef, lparts) && Placed(rh, rdef, rparts) && Aligned(lsegs, rsegs)
    requires (forall s | s in lsegs :: s in lh.segments) && (forall t | t in rsegs :: t in rh.segments)
    requires s in lsegs && l in RowsOf(lparts, s.table) && t in rh.segments && r in RowsOf(rparts, t.table)
    requires (l, Joins.ARow(r)) in JoinBySegment(on, outer, lsegs, lparts, rsegs, rparts)
    ensures SamePlace(s, t)
  {
    SegmentPairs(on, outer, lsegs, lparts, rsegs, rparts, l, r);
    var i: nat :| PairAt(lsegs, lparts, rsegs, rparts, l, r, i);
    assert lsegs[i] in lsegs && rsegs[i] in rsegs;
    assert AtHome(lh, ldef, s, l) && AtHome(lh, ldef, lsegs[i], l) && AtHome(rh, rdef, t, r) && AtHome(rh, rdef, rsegs[i], r);
  }

  /** Two rows that meet the condition in segments that do not lie side by side are not joined. */
  lemma StrayLost(on: Condition, outer: bool, lh: Hash, ldef: TableDef, lparts: Parts, lsegs: seq<Segment>,
                  rh: Hash, rdef: TableDef, rparts: Parts, rsegs: seq<Segment>, s: Segment, l: Row, t: Segment, r: Row)
    requires Placed(lh, ldef, lparts) && Placed(rh, rdef, rparts) && Aligned(lsegs, rsegs)
    requires (forall s | s in lsegs :: s in lh.segments) && (forall t | t in rsegs :: t in rh.segments)
    requires s in lsegs && l in RowsOf(lparts, s.table) && t in rh.segments && r in RowsOf(rparts, t.table) && on(l, r) && !SamePlace(s, t)
    ensures (l, Joins.ARow(r)) in Join(on, outer, Flat(lsegs, lparts), Flat(rh.segments, rparts))
    ensures (l, Joins.ARow(r)) !in JoinBySegment(on, outer, lsegs, lparts, rsegs, rparts)
  {
    InFlat(lsegs, lparts, s, l);
    InFlat(rh.segments, rparts, t, r);
    JoinPairs(on, outer, Flat(lsegs, lparts), Flat(rh.segments, rparts), l, r);
    if (l, Joins.ARow(r)) in JoinBySegment(on, outer, lsegs, lparts, rsegs, rparts) {
      JoinedBeside(on, outer, lh, ldef, lparts, lsegs, rh, rdef, rparts, rsegs, s, l, t, r);
    }
  }

  /** Joining partition by partition: for any segments of the left table with the segments beside them, the union
      of the joins is the join with the whole right table if and only if no two rows that meet the condition are in
      segments that do not lie side by side. With all segments it is the join of the whole tables. */
  lemma PushDownCorrect(on: Condition, outer: bool, lh: Hash, ldef: TableDef, lparts: Parts, lsegs: seq<Segment>,
                        rh: Hash, rdef: TableDef, rparts: Parts, rsegs: seq<Segment>)
    requires Ready(lh, ldef) && Ready(rh, rdef) && Placed(lh, ldef, lparts) && Placed(rh, rdef, rparts) && Aligned(lsegs, rsegs)
    requires (forall s | s in lsegs :: s in lh.segments) && (forall t | t in rsegs :: t in rh.segments)
    ensures JoinBySegment(on, outer, lsegs, lparts, rsegs, rparts) == Join(on, outer, Flat(lsegs, lparts), Flat(rh.segments, rparts))
       <==> PartnersBeside(on, lsegs, lparts, rh.segments, rparts)
  {
    if PartnersBeside(on, lsegs, lparts, rh.segments, rparts) {
      forall i | 0 <= i < |lsegs| ensures JoinsLocally(on, outer, lsegs[i], lparts, rsegs[i], rparts, Flat(rh.segments, rparts)) {
        assert lsegs[i] in lsegs && rsegs[i] in rsegs && SamePlace(lsegs[i], rsegs[i]);
        SegmentJoin(on, outer, lsegs, lparts, rh, rparts, lsegs[i], rsegs[i]);
      }
      UnionOfLocal(on, outer, lsegs, lparts, rsegs, rparts, Flat(rh.segments, rparts));
    } else {
      var s, l, t, r :| s in lsegs && l in RowsOf(lparts, s.table) && t in rh.segments && r in RowsOf(rparts, t.table) && on(l, r) && !SamePlace(s, t);
      StrayLost(on, outer, lh, ldef, lparts, lsegs, rh, rdef, rparts, rsegs, s, l, t, r);
    }
  }

  /** Two tables in their partitions, joined partition by partition: the joined rows are those of the two tables
      their users see if and only if rows that meet the condition are in partitions that lie side by side. */
  lemma TablesJoined(on: Condition, outer: bool, left: Sharded, right: Sharded)
    requires left.Valid() && right.Valid() && SamePartitions(left.h.conf, right.h.conf)
    ensures |left.h.segments| == |right.h.segments|
    ensures JoinBySegment(on, outer, left.h.segments, left.parts, right.h.segments, right.parts) == Join(on, outer, left.logical, right.logical)
       <==> PartnersBeside(on, left.h.segments, left.parts, right.h.segments, right.parts)
  {
    SegmentsAligned(left.h, right.h);
    PushDownCorrect(on, outer, left.h, left.def, left.parts, left.h.segments, right.h, right.def, right.parts, right.h.segments);
    JoinPermutation(on, outer, Flat(left.h.segments, left.parts), Flat(right.h.segments, right.parts), left.logical, right.logical);
  }

  // ---------------------------------------------------------------- for all rows

  /** Rows that meet the condition belong to partitions that lie side by side. */
  ghost predicate HomesMeet(on: Condition, lh: Hash, ldef: TableDef, rh: Hash, rdef: TableDef)
    reads lh, rh
  {
    forall l, r | Keyed(ldef, l) && Keyed(rdef, r) && on(l, r) :: SamePlace(Home(lh, ldef, l), Home(rh, rdef, r))
  }

  /** Whatever rows the tables have, each in its partition, joining by partition is joining the tables. */
  ghost predicate PushDownRight(on: Condition, outer: bool, lh: Hash, ldef: TableDef, rh: Hash, rdef: TableDef)
    requires |lh.segments| == |rh.segments|
    reads lh, rh
  {
    forall lparts, rparts | Placed(lh, ldef, lparts) && Placed(rh, rdef, rparts) ::
      JoinBySegment(on, outer, lh.segments, lparts, rh.segments, rparts) == Join(on, outer, Flat(lh.segments, lparts), Flat(rh.segments, rparts))
  }

  /** Two tables with one row each, which meet the condition and belong to partitions that do not lie side by side:
      the joined row is lost. */
  lemma MisplacedLost(on: Condition, outer: bool, lh: Hash, ldef: TableDef, rh: Hash, rdef: TableDef, l: Row, r: Row)
    requires Ready(lh, ldef) && Ready(rh, rdef) && SamePartitions(lh.conf, rh.conf)
    requires Keyed(ldef, l) && Keyed(rdef, r) && on(l, r) && !SamePlace(Home(lh, ldef, l), Home(rh, rdef, r))
    ensures Placed(lh, ldef, Lone(lh, ldef, l)) && Placed(rh, rdef, Lone(rh, rdef, r)) && |lh.segments| == |rh.segments|
    ensures (l, Joins.ARow(r)) in Join(on, outer, Flat(lh.segments, Lone(lh, ldef, l)), Flat(rh.segments, Lone(rh, rdef, r)))
    ensures (l, Joins.ARow(r)) !in JoinBySegment(on, outer, lh.segments, Lone(lh, ldef, l), rh.segments, Lone(rh, rdef, r))
  {
    LonePlaced(lh, ldef, l);
    LonePlaced(rh, rdef, r);
    SegmentsAligned(lh, rh);
    StrayLost(on, outer, lh, ldef, Lone(lh, ldef, l), lh.segments, rh, rdef, Lone(rh, rdef, r), rh.segments,
              Home(lh, ldef, l), l, Home(rh, rdef, r), r);
  }

  lemma MeetBeside(on: Condition, lh: Hash, ldef: TableDef, lparts: Parts, rh: Hash, rdef: TableDef, rparts: Parts)
    requires HomesMeet(on, lh, ldef, rh, rdef) && Placed(lh, ldef, lparts) && Placed(rh, rdef, rparts)
    ensures PartnersBeside(on, lh.segments, lparts, rh.segments, rparts)
  {
    forall s, l, t, r | s in lh.segments && l in RowsOf(lparts, s.table) && t in rh.segments && r in RowsOf(rparts, t.table) && on(l, r)
      ensures SamePlace(s, t)
    {
      assert AtHome(lh, ldef, s, l) && AtHome(rh, rdef, t, r);
    }
  }

  /** Pushing the join down is right for all rows if and only if rows that meet the condition belong to partitions
      that lie side by side. */
  lemma PushDownExact(on: Condition, outer: bool, lh: Hash, ldef: TableDef, rh: Hash, rdef: TableDef)
    requires Ready(lh, ldef) && Ready(rh, rdef) && SamePartitions(lh.conf, rh.conf)
    ensures |lh.segments| == |rh.segments|
    ensures PushDownRight(on, outer, lh, ldef, rh, rdef) <==> HomesMeet(on, lh, ldef, rh, rdef)
  {
    SegmentsAligned(lh, rh);
    if HomesMeet(on, lh, ldef, rh, rdef) {
      forall lparts, rparts | Placed(lh, ldef, lparts) && Placed(rh, rdef, rparts)
        ensures JoinBySegment(on, outer, lh.segments, lparts, rh.segments, rparts) == Join(on, outer, Flat(lh.segments, lparts), Flat(rh.segments, rparts))
      {
        MeetBeside(on, lh, ldef, lparts, rh, rdef, rparts);
        PushDownCorrect(on, outer, lh, ldef, lparts, lh.segments, rh, rdef, rparts, rh.segments);
      }
    } else {
      var l, r :| Keyed(ldef, l) && Keyed(rdef, r) && on(l, r) && !SamePlace(Home(lh, ldef, l), Home(rh, rdef, r));
      MisplacedLost(on, outer, lh, ldef, rh, rdef, l, r);
    }
  }

  // ---------------------------------------------------------------- equal shard keys

  /** Equal key values belong to partitions that lie side by side. */
  ghost predicate HomesAgree(lh: Hash, ldef: TableDef, rh: Hash, rdef: TableDef)
    reads lh, rh
  {
    forall v: Known, w: Known | SqlEqual(v, w) :: SamePlace(HomeOf(lh, ldef, v), HomeOf(rh, rdef, w))
  }

  /** The condition asks for equal shard keys, and perhaps for more. */
  ghost predicate JoinsOnKeys(on: Condition, ldef: TableDef, rdef: TableDef) {
    forall l, r | on(l, r) :: SqlEqual(KeyOf(ldef, l), KeyOf(rdef, r))
  }

  /** `left key = right key`. */
  function KeyEqual(ldef: TableDef, rdef: TableDef): (on: Condition) {
    (l: Row, r: Row) => SqlEqual(KeyOf(ldef, l), KeyOf(rdef, r))
  }

  lemma AgreeMeet(on: Condition, lh: Hash, ldef: TableDef, rh: Hash, rdef: TableDef)
    requires JoinsOnKeys(on, ldef, rdef) && HomesAgree(lh, ldef, rh, rdef)
    ensures HomesMeet(on, lh, ldef, rh, rdef)
  {
    forall l, r | Keyed(ldef, l) && Keyed(rdef, r) && on(l, r) ensures SamePlace(Home(lh, ldef, l), Home(rh, rdef, r)) {
      var v: Known, w: Known := KeyOf(ldef, l), KeyOf(rdef, r);
      assert SqlEqual(v, w);
    }
  }

  /** The joins of two tables on their shard keys, whatever else they ask for, may all be pushed down if and only if
      equal key values belong to partitions that lie side by side. */
  lemma KeyJoinsExact(outer: bool, lh: Hash, ldef: TableDef, rh: Hash, rdef: TableDef)
    requires Ready(lh, ldef) && Ready(rh, rdef) && SamePartitions(lh.conf, rh.conf)
    ensures |lh.segments| == |rh.segments|
    ensures PushDownRight(KeyEqual(ldef, rdef), outer, lh, ldef, rh, rdef) <==> HomesAgree(lh, ldef, rh, rdef)
    ensures HomesAgree(lh, ldef, rh, rdef) ==>
              forall on: Condition | JoinsOnKeys(on, ldef, rdef) :: PushDownRight(on, outer, lh, ldef, rh, rdef)
  {
    PushDownExact(KeyEqual(ldef, rdef), outer, lh, ldef, rh, rdef);
    if HomesAgree(lh, ldef, rh, rdef) {
      forall on: Condition | JoinsOnKeys(on, ldef, rdef) ensures PushDownRight(on, outer, lh, ldef, rh, rdef) {
        AgreeMeet(on, lh, ldef, rh, rdef);
        PushDownExact(on, outer, lh, ldef, rh, rdef);
      }
      assert JoinsOnKeys(KeyEqual(ldef, rdef), ldef, rdef);
    }
    if HomesMeet(KeyEqual(ldef, rdef), lh, ldef, rh, rdef) {
      forall v: Known, w: Known | SqlEqual(v, w) ensures SamePlace(HomeOf(lh, ldef, v), HomeOf(rh, rdef, w)) {
        var l, r := RowWithKey(ldef, v), RowWithKey(rdef, w);
        assert Keyed(ldef, l) && Keyed(rdef, r) && KeyEqual(ldef, rdef)(l, r);
        assert SamePlace(Home(lh, ldef, l), Home(rh, rdef, r));
      }
    }
  }

  /** So they may when both tables give each key value the same slot, as keys of one type have. */
  lemma SameSlotsAgree(lh: Hash, ldef: TableDef, rh: Hash, rdef: TableDef)
    requires Ready(lh, ldef) && Ready(rh, rdef) && SamePartitions(lh.conf, rh.conf)
    requires forall v: Known :: ldef.slot(v) == rdef.slot(v)
    ensures HomesAgree(lh, ldef, rh, rdef)
  {
    forall v: Known, w: Known | SqlEqual(v, w) ensures SamePlace(HomeOf(lh, ldef, v), HomeOf(rh, rdef, w)) {
      assert rdef.slot(v) == rdef.slot(w);
      SlotAligned(lh, rh, ldef.slot(v));
    }
  }

  lemma JoinPermutation(on: Condition, outer: bool, left: seq<Row>, right: seq<Row>, left': seq<Row>, right': seq<Row>)
    requires multiset(left) == multiset(left') && multiset(right) == multiset(right')
    ensures Join(on, outer, left, right) == Join(on, outer, left', right')
  {
    forall l: Row ensures RowJoin(on, outer, l, right) == RowJoin(on, outer, l, right') {
      Joins.OneJoinPermutation((r: Row) => on(l, r), Partner(on, l), if outer then multiset{(l, Joins.NoRow)} else multiset{}, right, right');
    }
    SumPermutation(left, left', (l: Row) => RowJoin(on, outer, l, right));
    SumPointwise(left', (l: Row) => RowJoin(on, outer, l, right), (l: Row) => RowJoin(on, outer, l, right'));
  }
}
