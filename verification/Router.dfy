/** The router's view of hash tables: segments by slot, and moving a partition to another backend. */
module Router {
  import opened Text
  import opened Values
  import opened HashPartition

  // ---------------------------------------------------------------- segments by slots

  /** The segments of some slots, each once, in the order they first come up. */
  function Firsts(segs: seq<Segment>): (r: seq<Segment>) {
    if segs == [] then []
    else
      var before, last := Firsts(segs[..|segs| - 1]), segs[|segs| - 1];
      if SameRange(before, last) then before else before + [last]
  }

  /** Segments are told apart by the range of slots they hold. */
  predicate SameRange(segs: seq<Segment>, s: Segment) {
    exists k | 0 <= k < |segs| :: segs[k].start == s.start && segs[k].end == s.end
  }

  function BySlot(m: map<int, Segment>, indexes: seq<int>): (segs: seq<Segment>)
    ensures |segs| == |indexes|
  {
    seq(|indexes|, i requires 0 <= i < |indexes| => if indexes[i] in m then m[indexes[i]] else NoSegment)
  }

  /** All segments without slots to choose by, else the segments of the slots; an error when a slot
      is not one of the table's. */
  method GetSegments(h: Hash, indexes: seq<int>) returns (r: Option<seq<Segment>>)
    ensures r.None? <==> exists k | 0 <= k < |indexes| :: !(0 <= indexes[k] < h.slots)
    ensures r.Some? ==> r.value == if indexes == [] then h.segments else Firsts(BySlot(h.partitions, indexes))
  {
    if |indexes| == 0 {
      return Some(h.segments);
    }
    var segs: seq<Segment> := [];
    for i := 0 to |indexes|
      invariant forall k | 0 <= k < i :: 0 <= indexes[k] < h.slots
      invariant segs == Firsts(BySlot(h.partitions, indexes[..i]))
    {
      var segment := h.GetSegment(indexes[i]);
      if segment.None? {
        return None;
      }
      var isRepeat := false;
      var k := 0;
      while k < |segs| && !isRepeat
        invariant 0 <= k <= |segs|
        invariant isRepeat ==> SameRange(segs, segment.value)
        invariant !isRepeat ==> forall j | 0 <= j < k :: !(segs[j].start == segment.value.start && segs[j].end == segment.value.end)
      {
        if segs[k].start == segment.value.start && segs[k].end == segment.value.end {
          isRepeat := true;
        }
        k := k + 1;
      }
      assert BySlot(h.partitions, indexes[..i + 1]) == BySlot(h.partitions, indexes[..i]) + [segment.value];
      assert (BySlot(h.partitions, indexes[..i]) + [segment.value])[..i] == BySlot(h.partitions, indexes[..i]);
      if !isRepeat {
        segs := segs + [segment.value];
      }
    }
    assert indexes[..|indexes|] == indexes;
    return Some(segs);
  }

  /** No two of the segments hold the same range. */
  predicate DistinctRanges(segs: seq<Segment>) {
    forall i, j | 0 <= i < j < |segs| :: segs[i].start != segs[j].start || segs[i].end != segs[j].end
  }

  lemma {:induction false} FirstsComplete(segs: seq<Segment>, x: Segment)
    requires forall s, t | s in segs && t in segs && s.start == t.start && s.end == t.end :: s == t
    ensures x in Firsts(segs) <==> x in segs
    ensures DistinctRanges(Firsts(segs))
    decreases |segs|
  {
    if segs != [] {
      var n := |segs| - 1;
      FirstsComplete(segs[..n], x);
      FirstsComplete(segs[..n], segs[n]);
      assert segs == segs[..n] + [segs[n]];
      if SameRange(Firsts(segs[..n]), segs[n]) {
        var k :| 0 <= k < |Firsts(segs[..n])| && Firsts(segs[..n])[k].start == segs[n].start && Firsts(segs[..n])[k].end == segs[n].end;
        FirstsComplete(segs[..n], Firsts(segs[..n])[k]);
        assert Firsts(segs[..n])[k] in segs;
      }
    }
  }

  /** Two segments of a slot map with the same range are one. */
  lemma SameRangeSameSegment(segs: seq<Segment>, s: Segment, t: Segment)
    requires Disjoint(segs) && NonEmpty(segs) && s in segs && t in segs && s.start == t.start && s.end == t.end
    ensures s == t
  {
    var i :| 0 <= i < |segs| && segs[i] == s;
    var j :| 0 <= j < |segs| && segs[j] == t;
    assert Covers(s, s.start);
    SlotMapUnique(segs, i, s.start);
    SlotMapUnique(segs, j, s.start);
  }

  /** The segments found for slots of a complete table are exactly those that hold one of the slots. */
  lemma SegmentsOfSlots(segs: seq<Segment>, indexes: seq<int>, x: Segment)
    requires Disjoint(segs) && NonEmpty(segs)
    requires forall k | 0 <= k < |indexes| :: indexes[k] in SlotMap(segs)
    ensures x in Firsts(BySlot(SlotMap(segs), indexes)) <==> x in segs && exists k | 0 <= k < |indexes| :: Covers(x, indexes[k])
    ensures DistinctRanges(Firsts(BySlot(SlotMap(segs), indexes)))
  {
    var found := BySlot(SlotMap(segs), indexes);
    forall s | s in found ensures s in segs {
      var k :| 0 <= k < |found| && found[k] == s;
      SlotMapCovers(segs, indexes[k]);
    }
    forall s, t | s in found && t in found && s.start == t.start && s.end == t.end ensures s == t {
      SameRangeSameSegment(segs, s, t);
    }
    FirstsComplete(found, x);
    if x in found {
      var k :| 0 <= k < |found| && found[k] == x;
      SlotMapCovers(segs, indexes[k]);
      assert Covers(x, indexes[k]);
    }
    if x in segs && exists k | 0 <= k < |indexes| :: Covers(x, indexes[k]) {
      var k :| 0 <= k < |indexes| && Covers(x, indexes[k]);
      var j :| 0 <= j < |segs| && segs[j] == x;
      SlotMapUnique(segs, j, indexes[k]);
      assert found[k] == x;
    }
  }

  /** A point lookup finds the one segment that covers the slot of the key. */
  lemma PointLookup(h: Hash, v: Literal)
    requires h.Built() && (forall k | 0 <= k < |h.conf| :: Parsed(h.conf)[k].end <= h.slots)
    requires h.hash(v).Some? && 0 <= h.hash(v).value < h.slots
    ensures h.Lookup(Some(v), Some(v)).Some? && |h.Lookup(Some(v), Some(v)).value| == 1
    ensures var s := h.Lookup(Some(v), Some(v)).value[0];
      && s in Parsed(h.conf) && Covers(s, h.hash(v).value)
      && forall k | 0 <= k < |h.conf| && Covers(Parsed(h.conf)[k], h.hash(v).value) :: Parsed(h.conf)[k] == s
  {
    var i, segs := h.hash(v).value, Parsed(h.conf);
    EverySlotCovered(h.conf, h.slots);
    SlotMapCovers(segs, i);
    forall k | 0 <= k < |h.conf| && Covers(segs[k], i) ensures segs[k] == h.partitions[i] {
      SlotMapUnique(segs, k, i);
    }
  }

  // ---------------------------------------------------------------- moving a partition

  /** The configuration with partition `k` on another backend. */
  function Shifted(conf: seq<PartitionConfig>, k: nat, to: string): (r: seq<PartitionConfig>)
    requires k < |conf|
  {
    conf[k := conf[k].(backend := to)]
  }

  /** The first partition table of that name on that backend. */
  ghost predicate IsTarget(conf: seq<PartitionConfig>, from: string, table: string, k: nat) {
    && k < |conf| && conf[k].backend == from && conf[k].table == table
    && forall j | 0 <= j < k :: !(conf[j].backend == from && conf[j].table == table)
  }

  lemma ShiftedParses(conf: seq<PartitionConfig>, k: nat, to: string)
    requires k < |conf| && AllParse(conf)
    ensures AllParse(Shifted(conf, k, to))
    ensures Parsed(Shifted(conf, k, to)) == Parsed(conf)[k := Parsed(conf)[k].(backend := to)]
  {
    forall i | 0 <= i < |conf|
      ensures ParseSegment(Shifted(conf, k, to)[i]).Some?
      ensures ParseSegment(Shifted(conf, k, to)[i]).value == Parsed(conf)[k := Parsed(conf)[k].(backend := to)][i]
    {
      assert ParseSegment(conf[i]).Some?;
    }
    assert |Parsed(Shifted(conf, k, to))| == |conf|;
  }

  lemma {:induction false} ShiftedSize(segs: seq<Segment>, k: nat, to: string)
    requires k < |segs|
    ensures TotalSize(segs[k := segs[k].(backend := to)]) == TotalSize(segs)
    decreases |segs|
  {
    var n, moved := |segs| - 1, segs[k := segs[k].(backend := to)];
    if k == n {
      assert moved[..n] == segs[..n];
    } else {
      assert moved[..n] == segs[..n][k := segs[..n][k].(backend := to)];
      ShiftedSize(segs[..n], k, to);
    }
  }

  /** `m'` is `m` with the slots of one segment on another backend. */
  ghost predicate MovedOnly(m: map<int, Segment>, m': map<int, Segment>, seg: Segment, to: string) {
    m'.Keys == m.Keys && forall i | i in m :: m'[i] == if Covers(seg, i) then m[i].(backend := to) else m[i]
  }

  lemma MovedDisjoint(segs: seq<Segment>, k: nat, to: string)
    requires k < |segs| && Disjoint(segs)
    ensures Disjoint(segs[k := segs[k].(backend := to)])
  {
    var moved := segs[k := segs[k].(backend := to)];
    forall a, b | 0 <= a < b < |moved| ensures HashPartition.Apart(moved[a], moved[b]) {
      assert HashPartition.Apart(segs[a], segs[b]);
    }
  }

  lemma MovedSlot(segs: seq<Segment>, k: nat, to: string, i: int)
    requires k < |segs| && Disjoint(segs)
    ensures var m, m' := SlotMap(segs), SlotMap(segs[k := segs[k].(backend := to)]);
      && (i in m' <==> i in m)
      && (i in m ==> m'[i] == if Covers(segs[k], i) then m[i].(backend := to) else m[i])
  {
    var moved := segs[k := segs[k].(backend := to)];
    MovedDisjoint(segs, k, to);
    SlotMapCovers(segs, i);
    SlotMapCovers(moved, i);
    assert forall j | 0 <= j < |segs| :: Covers(moved[j], i) == Covers(segs[j], i);
    if i in SlotMap(segs) {
      var j :| 0 <= j < |segs| && Covers(segs[j], i);
      assert Covers(moved[j], i);
      SlotMapUnique(segs, j, i);
      SlotMapUnique(moved, j, i);
      if Covers(segs[k], i) {
        SlotMapUnique(segs, k, i);
      }
    }
  }

  /** After a shift the table still builds, the slots of the moved partition are on the new backend,
      and every other slot is where it was. */
  lemma ShiftMovesOnlyThatPartition(conf: seq<PartitionConfig>, slots: int, k: nat, to: string)
    requires k < |conf| && Accepted(conf, slots)
    ensures Accepted(Shifted(conf, k, to), slots)
    ensures MovedOnly(SlotMap(Parsed(conf)), SlotMap(Parsed(Shifted(conf, k, to))), Parsed(conf)[k], to)
  {
    ShiftedParses(conf, k, to);
    ShiftedSize(Parsed(conf), k, to);
    MovedDisjoint(Parsed(conf), k, to);
    forall i ensures i in SlotMap(Parsed(Shifted(conf, k, to))) <==> i in SlotMap(Parsed(conf)) {
      MovedSlot(Parsed(conf), k, to, i);
    }
    forall i | i in SlotMap(Parsed(conf))
      ensures SlotMap(Parsed(Shifted(conf, k, to)))[i]
           == if Covers(Parsed(conf)[k], i) then SlotMap(Parsed(conf))[i].(backend := to) else SlotMap(Parsed(conf))[i]
    {
      MovedSlot(Parsed(conf), k, to, i);
    }
  }

  /** A hash table of the catalog: its configuration and the partition object built from it. */
  class HashTable {
    const slots: int
    const hash: Literal -> Option<int>
    var conf: seq<PartitionConfig>
    var route: Hash

    ghost predicate Valid()
      reads this, route
    {
      route.conf == conf && route.slots == slots && route.hash == hash && route.Built()
    }

    constructor (route: Hash)
      requires route.Built()
      ensures Valid() && this.route == route && conf == route.conf
    {
      this.slots, this.hash, this.conf, this.route := route.slots, route.hash, route.conf, route;
    }

    /** Finds the partition and changes its backend; the change is taken back when the
        configuration cannot be written. */
    method ChangeTheRuleBackend(from: string, to: string, table: string, writable: bool) returns (ok: bool, ghost k: nat)
      modifies this`conf
      ensures ok ==> IsTarget(old(conf), from, table, k) && conf == Shifted(old(conf), k, to) && from != to && writable
      ensures !ok ==> conf == old(conf)
      ensures ok <==> from != to && writable && exists j :: IsTarget(old(conf), from, table, j)
    {
      k := 0;
      if from == to {
        return false, 0;
      }
      var j := 0;
      while j < |conf| && !(conf[j].backend == from && conf[j].table == table)
        invariant 0 <= j <= |conf|
        invariant forall i | 0 <= i < j :: !(conf[i].backend == from && conf[i].table == table)
      {
        j := j + 1;
      }
      if j == |conf| {
        return false, 0;
      }
      assert IsTarget(conf, from, table, j);
      conf := Shifted(conf, j, to);
      if !writable {
        conf := conf[j := conf[j].(backend := from)];
        return false, 0;
      }
      return true, j;
    }

    /** Moves a partition to another backend and reloads the table; the reload cannot fail. */
    method PartitionRuleShift(from: string, to: string, table: string, writable: bool) returns (ok: bool, ghost k: nat)
      requires Valid()
      modifies this
      ensures Valid()
      ensures !ok ==> conf == old(conf) && route == old(route)
      ensures ok <==> from != to && writable && exists j :: IsTarget(old(conf), from, table, j)
      ensures ok ==> IsTarget(old(conf), from, table, k) && conf == Shifted(old(conf), k, to)
      ensures ok ==> MovedOnly(old(route.partitions), route.partitions, Parsed(old(conf))[k], to)
    {
      ok, k := ChangeTheRuleBackend(from, to, table, writable);
      if !ok {
        return;
      }
      ShiftMovesOnlyThatPartition(old(conf), slots, k, to);
      var fresh' := new Hash(slots, conf, hash);
      var built := fresh'.Build();
      route := fresh';
    }
  }
}
