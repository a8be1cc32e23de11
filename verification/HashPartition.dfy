/** Hash partitions: the slot map built from a table's configuration, and the lookups on it. */
module HashPartition {
  import opened Text
  import opened Values
  import opened Sorting

  datatype PartitionConfig = PartitionConfig(table: string, segment: string, backend: string)

  /** A partition table with its backend, holding the slots from `start` up to but not including `end`. */
  datatype Segment = Segment(table: string, backend: string, start: int, end: int)

  datatype LiteralKind = IntVal | FloatVal | StrVal | OtherVal

  /** A literal as it is written in a statement; NULL is not a literal. */
  datatype Literal = Literal(kind: LiteralKind, text: string)

  predicate Between(a: int, i: int, b: int) {
    a <= i < b
  }

  predicate Covers(s: Segment, slot: int) {
    Between(s.start, slot, s.end)
  }

  function ParseSegment(p: PartitionConfig): (r: Option<Segment>) {
    var parts := Split(p.segment);
    if |parts| != 2 then None
    else
      var start, end := Atoi(parts[0]), Atoi(parts[1]);
      if start.None? || end.None? || end.value <= start.value then None
      else Some(Segment(p.table, p.backend, start.value, end.value))
  }

  predicate AllParse(conf: seq<PartitionConfig>) {
    forall i | 0 <= i < |conf| :: ParseSegment(conf[i]).Some?
  }

  function Parsed(conf: seq<PartitionConfig>): (segs: seq<Segment>)
    requires AllParse(conf)
    ensures |segs| == |conf|
  {
    seq(|conf|, i requires 0 <= i < |conf| => ParseSegment(conf[i]).value)
  }

  predicate Apart(s: Segment, t: Segment) {
    s.end <= t.start || t.end <= s.start
  }

  predicate Disjoint(segs: seq<Segment>) {
    forall i, j | 0 <= i < j < |segs| :: Apart(segs[i], segs[j])
  }

  predicate NonEmpty(segs: seq<Segment>) {
    forall i | 0 <= i < |segs| :: segs[i].start < segs[i].end
  }

  function TotalSize(segs: seq<Segment>): (n: int) {
    if segs == [] then 0
    else TotalSize(segs[..|segs| - 1]) + segs[|segs| - 1].end - segs[|segs| - 1].start
  }

  /** Each slot with the segment that covers it. */
  function SlotMap(segs: seq<Segment>): (m: map<int, Segment>) {
    if segs == [] then map[]
    else
      var last := segs[|segs| - 1];
      Marked(SlotMap(segs[..|segs| - 1]), last, last.end)
  }

  /** `m` with the slots of `seg` below `end` given to `seg`. */
  function Marked(m: map<int, Segment>, seg: Segment, end: int): (m': map<int, Segment>)
    decreases end - seg.start
  {
    if end <= seg.start then m else Marked(m, seg, end - 1)[end - 1 := seg]
  }

  lemma {:induction false} MarkedAt(m: map<int, Segment>, seg: Segment, end: int, i: int)
    ensures i in Marked(m, seg, end) <==> i in m || Between(seg.start, i, end)
    ensures Between(seg.start, i, end) ==> Marked(m, seg, end)[i] == seg
    ensures i in m && !Between(seg.start, i, end) ==> Marked(m, seg, end)[i] == m[i]
    decreases end - seg.start
  {
    if seg.start < end {
      MarkedAt(m, seg, end - 1, i);
    }
  }

  /** What Build accepts: segments that parse, do not overlap and have as many slots in all as the
      table. Where they lie is not looked at. */
  predicate Accepted(conf: seq<PartitionConfig>, slots: int) {
    AllParse(conf) && Disjoint(Parsed(conf)) && TotalSize(Parsed(conf)) == slots
  }

  // ---------------------------------------------------------------- the slot map

  /** Some segment covers the slot. */
  predicate Covered(segs: seq<Segment>, i: int) {
    exists k | 0 <= k < |segs| :: Covers(segs[k], i)
  }

  lemma SlotMapStep(segs: seq<Segment>, i: int)
    requires segs != []
    ensures var last, before := segs[|segs| - 1], SlotMap(segs[..|segs| - 1]);
      && (i in SlotMap(segs) <==> i in before || Covers(last, i))
      && (Covers(last, i) ==> SlotMap(segs)[i] == last)
      && (i in before && !Covers(last, i) ==> SlotMap(segs)[i] == before[i])
  {
    var last := segs[|segs| - 1];
    MarkedAt(SlotMap(segs[..|segs| - 1]), last, last.end, i);
  }

  lemma CoveredStep(segs: seq<Segment>, i: int)
    requires segs != []
    ensures Covered(segs, i) <==> Covered(segs[..|segs| - 1], i) || Covers(segs[|segs| - 1], i)
  {
    var n := |segs| - 1;
    if Covered(segs[..n], i) {
      var k :| 0 <= k < n && Covers(segs[..n][k], i);
      assert Covers(segs[k], i);
    }
    if Covered(segs, i) && !Covers(segs[n], i) {
      var k :| 0 <= k < |segs| && Covers(segs[k], i);
      assert Covers(segs[..n][k], i);
    }
  }

  lemma {:induction false} SlotMapCovers(segs: seq<Segment>, i: int)
    ensures i in SlotMap(segs) ==> SlotMap(segs)[i] in segs && Covers(SlotMap(segs)[i], i)
    ensures i in SlotMap(segs) <==> Covered(segs, i)
    decreases |segs|
  {
    if segs != [] {
      SlotMapCovers(segs[..|segs| - 1], i);
      SlotMapStep(segs, i);
      CoveredStep(segs, i);
    }
  }

  /** The slot map is right and complete: a segment that covers a slot is the one the map has. */
  lemma SlotMapUnique(segs: seq<Segment>, k: nat, i: int)
    requires Disjoint(segs) && k < |segs| && Covers(segs[k], i)
    ensures i in SlotMap(segs) && SlotMap(segs)[i] == segs[k]
  {
    SlotMapCovers(segs, i);
    var j :| 0 <= j < |segs| && segs[j] == SlotMap(segs)[i];
    assert Covers(segs[j], i);
  }

  function Interval(a: int, b: int): (s: set<int>) {
    set i | a <= i < b && Between(a, i, b)
  }

  lemma {:induction false} IntervalSize(a: int, b: int)
    requires a <= b
    ensures |Interval(a, b)| == b - a
    decreases b - a
  {
    if a < b {
      IntervalSize(a, b - 1);
      assert Interval(a, b) == Interval(a, b - 1) + {b - 1};
    } else {
      assert Interval(a, b) == {};
    }
  }

  lemma LastKeys(segs: seq<Segment>)
    requires segs != []
    ensures SlotMap(segs).Keys == SlotMap(segs[..|segs| - 1]).Keys + Interval(segs[|segs| - 1].start, segs[|segs| - 1].end)
  {
    var last := segs[|segs| - 1];
    forall i ensures i in SlotMap(segs) <==> i in SlotMap(segs[..|segs| - 1]) || i in Interval(last.start, last.end) {
      SlotMapStep(segs, i);
    }
  }

  lemma LastKeysNew(segs: seq<Segment>)
    requires segs != [] && Disjoint(segs)
    ensures SlotMap(segs[..|segs| - 1]).Keys !! Interval(segs[|segs| - 1].start, segs[|segs| - 1].end)
  {
    var n := |segs| - 1;
    forall i | i in SlotMap(segs[..n]) ensures i !in Interval(segs[n].start, segs[n].end) {
      SlotMapCovers(segs[..n], i);
      var k :| 0 <= k < n && Covers(segs[..n][k], i);
      assert Apart(segs[k], segs[n]);
    }
  }

  lemma {:induction false} SlotMapSize(segs: seq<Segment>)
    requires Disjoint(segs) && NonEmpty(segs)
    ensures |SlotMap(segs).Keys| == TotalSize(segs)
    decreases |segs|
  {
    if segs != [] {
      var n := |segs| - 1;
      SlotMapSize(segs[..n]);
      IntervalSize(segs[n].start, segs[n].end);
      LastKeys(segs);
      LastKeysNew(segs);
    }
  }

  lemma {:induction false} NoDashes(s: string, k: nat)
    requires k < |Split(s)|
    ensures '-' !in Split(s)[k]
  {
    if s != "" {
      if s[0] == '-' {
        if k > 0 {
          NoDashes(s[1..], k - 1);
        }
      } else {
        NoDashes(s[1..], k);
      }
    }
  }

  /** No segment starts below zero: a minus sign would have split it. */
  lemma ParsedFromZero(p: PartitionConfig)
    requires ParseSegment(p).Some?
    ensures 0 <= ParseSegment(p).value.start < ParseSegment(p).value.end
  {
    NoDashes(p.segment, 0);
  }

  lemma EqualBySize<T>(a: set<T>, b: set<T>)
    requires a <= b && |a| == |b|
    ensures a == b
  {
    assert b == a + (b - a);
    assert |b - a| == 0;
  }

  lemma InsideCovered(segs: seq<Segment>, slots: int)
    requires Disjoint(segs) && NonEmpty(segs) && TotalSize(segs) == slots >= 0
    requires forall k | 0 <= k < |segs| :: 0 <= segs[k].start && segs[k].end <= slots
    ensures SlotMap(segs).Keys == Interval(0, slots)
  {
    SlotMapSize(segs);
    IntervalSize(0, slots);
    forall i | i in SlotMap(segs) ensures i in Interval(0, slots) {
      SlotMapCovers(segs, i);
    }
    EqualBySize(SlotMap(segs).Keys, Interval(0, slots));
  }

  lemma CoveredInside(segs: seq<Segment>, slots: int, k: nat)
    requires Disjoint(segs) && NonEmpty(segs) && TotalSize(segs) == slots >= 0
    requires Interval(0, slots) <= SlotMap(segs).Keys && k < |segs|
    ensures segs[k].end <= slots
  {
    SlotMapSize(segs);
    IntervalSize(0, slots);
    EqualBySize(Interval(0, slots), SlotMap(segs).Keys);
    assert Covers(segs[k], segs[k].end - 1);
    SlotMapCovers(segs, segs[k].end - 1);
    assert segs[k].end - 1 in Interval(0, slots);
  }

  /** Once Build has accepted the configuration, every slot of the table has a segment exactly when
      no segment ends past the last slot: as many slots as the table has, none outside, leaves none
      free. */
  lemma EverySlotCovered(conf: seq<PartitionConfig>, slots: int)
    requires Accepted(conf, slots)
    ensures (forall i | 0 <= i < slots :: i in SlotMap(Parsed(conf)))
       <==> (forall k | 0 <= k < |conf| :: Parsed(conf)[k].end <= slots)
  {
    var segs := Parsed(conf);
    forall k | 0 <= k < |segs| ensures 0 <= segs[k].start < segs[k].end {
      ParsedFromZero(conf[k]);
    }
    SlotMapSize(segs);
    if forall k | 0 <= k < |conf| :: segs[k].end <= slots {
      InsideCovered(segs, slots);
      assert forall i | 0 <= i < slots :: i in Interval(0, slots);
    }
    if forall i | 0 <= i < slots :: i in SlotMap(segs) {
      forall k | 0 <= k < |segs| ensures segs[k].end <= slots {
        CoveredInside(segs, slots, k);
      }
    }
  }

  /** A range of slots as configurations write it. */
  function Span(start: nat, end: nat): (s: string) {
    Itoa(start) + "-" + Itoa(end)
  }

  /** Printing a range and parsing it restores the bounds. */
  lemma ParseSpan(table: string, backend: string, start: nat, end: nat)
    requires start < end <= MaxInt
    ensures ParseSegment(PartitionConfig(table, Span(start, end), backend)) == Some(Segment(table, backend, start, end))
  {
    SplitJoined(Itoa(start), Itoa(end));
    AtoiItoa(start);
    AtoiItoa(end);
  }

  lemma HoleAccepted(p: PartitionConfig, q: PartitionConfig)
    requires ParseSegment(p) == Some(Segment("t0", "b1", 0, 5)) && ParseSegment(q) == Some(Segment("t1", "b2", 6, 11))
    ensures Accepted([p, q], 10) && 5 !in SlotMap(Parsed([p, q]))
  {
    var segs := Parsed([p, q]);
    assert segs == [Segment("t0", "b1", 0, 5), Segment("t1", "b2", 6, 11)];
    assert segs[..1] == [segs[0]] && [segs[0]][..0] == [];
    assert TotalSize([segs[0]]) == 5;
    SlotMapCovers(segs, 5);
  }

  /** Build accepts a table of ten slots whose slot 5 belongs to no partition. */
  lemma AcceptedWithHole()
    ensures var conf := [PartitionConfig("t0", Span(0, 5), "b1"), PartitionConfig("t1", Span(6, 11), "b2")];
      Accepted(conf, 10) && 5 !in SlotMap(Parsed(conf))
  {
    ParseSpan("t0", "b1", 0, 5);
    ParseSpan("t1", "b2", 6, 11);
    HoleAccepted(PartitionConfig("t0", Span(0, 5), "b1"), PartitionConfig("t1", Span(6, 11), "b2"));
  }

  // ---------------------------------------------------------------- the partition object

  /** The segment a lookup of an absent slot yields. */
  const NoSegment: Segment := Segment("", "", 0, 0)

  function CompareStart(s: Segment, t: Segment): (c: int) {
    s.start - t.start
  }

  /** Hash of a table: its slot map and its segments, and the hash function that gives a literal its
      slot, or no slot when its kind or text cannot be hashed. */
  class Hash {
    const slots: int
    const conf: seq<PartitionConfig>
    const hash: Literal -> Option<int>
    var partitions: map<int, Segment>
    var segments: seq<Segment>

    constructor (slots: int, conf: seq<PartitionConfig>, hash: Literal -> Option<int>)
      ensures this.slots == slots && this.conf == conf && this.hash == hash && partitions == map[] && segments == []
    {
      this.slots, this.conf, this.hash := slots, conf, hash;
      partitions, segments := map[], [];
    }

    /** Built from its configuration. */
    ghost predicate Built()
      reads this
    {
      && Accepted(conf, slots)
      && partitions == SlotMap(Parsed(conf))
      && multiset(segments) == multiset(Parsed(conf))
      && Sorted(segments, CompareStart)
    }

    /** Marks the slots of one segment; fails at the first slot that is already taken. */
    method MarkSlots(seg: Segment, ghost segs: seq<Segment>) returns (ok: bool)
      requires partitions == SlotMap(segs) && NonEmpty(segs) && seg.start < seg.end
      modifies this`partitions
      ensures ok <==> ApartFromAll(segs, seg)
      ensures ok ==> partitions == SlotMap(segs + [seg])
    {
      ghost var before := SlotMap(segs);
      var i := seg.start;
      while i < seg.end
        invariant seg.start <= i <= seg.end
        invariant Free(before, seg.start, i)
        invariant partitions == Marked(before, seg, i)
      {
        if i in partitions {
          Taken(segs, seg, i);
          return false;
        }
        MarkedAt(before, seg, i, i);
        partitions := partitions[i := seg];
        i := i + 1;
      }
      NoOverlap(segs, seg);
      MarkedLast(segs, seg);
      return true;
    }

    /** Adds one partition of the configuration. */
    method AddPartition(i: nat) returns (ok: bool)
      requires i < |conf| && AllParse(conf[..i]) && Disjoint(segments)
      requires segments == Parsed(conf[..i]) && NonEmpty(segments) && partitions == SlotMap(segments)
      modifies this
      ensures ok ==> AllParse(conf[..i + 1]) && Disjoint(segments)
      ensures ok ==> segments == Parsed(conf[..i + 1]) && NonEmpty(segments) && partitions == SlotMap(segments)
      ensures !ok && AllParse(conf) ==> !Disjoint(Parsed(conf))
    {
      var seg := ParseSegment(conf[i]);
      if seg.None? {
        return false;
      }
      ParsedStep(conf, i);
      ghost var before := segments;
      ok := MarkSlots(seg.value, before);
      if ok {
        DisjointStep(before, seg.value);
        segments := segments + [seg.value];
      } else {
        ghost var k :| 0 <= k < |segments| && !Apart(segments[k], seg.value);
        NotDisjoint(conf, k, i);
      }
    }

    /** Builds the slot map: succeeds exactly on the configurations that are accepted. */
    method Build() returns (ok: bool)
      requires partitions == map[] && segments == []
      modifies this
      ensures ok <==> Accepted(conf, slots)
      ensures ok ==> Built()
    {
      for i := 0 to |conf|
        invariant AllParse(conf[..i]) && Disjoint(segments)
        invariant segments == Parsed(conf[..i]) && NonEmpty(segments) && partitions == SlotMap(segments)
      {
        ok := AddPartition(i);
        if !ok {
          return;
        }
      }
      assert conf[..|conf|] == conf;
      SlotMapSize(segments);
      assert |partitions| == |partitions.Keys|;
      if |partitions| != slots {
        return false;
      }
      StartPreorder();
      segments := Sort(segments, CompareStart);
      return true;
    }

    /** The slot of a literal. */
    function GetIndex(v: Literal): (r: Option<int>) {
      hash(v)
    }

    /** The segment of a slot of the table. */
    function GetSegment(index: int): (r: Option<Segment>)
      reads this
    {
      if index < 0 || index >= slots then None
      else Some(if index in partitions then partitions[index] else NoSegment)
    }

    /** The segments for a range of keys: one segment for a single key, all of them otherwise. */
    function Lookup(start: Option<Literal>, end: Option<Literal>): (r: Option<seq<Segment>>)
      reads this
    {
      if start.None? || end.None? then Some(segments)
      else if start.value.kind != end.value.kind then None
      else if start.value.text != end.value.text then Some(segments)
      else
        var index := GetIndex(start.value);
        if index.None? then None
        else Some([if index.value in partitions then partitions[index.value] else NoSegment])
    }
  }

  predicate ApartFromAll(segs: seq<Segment>, seg: Segment) {
    forall k | 0 <= k < |segs| :: Apart(segs[k], seg)
  }

  /** No slot from `a` up to `b` is in the map. */
  predicate Free(m: map<int, Segment>, a: int, b: int) {
    forall k | a <= k < b :: k !in m
  }

  lemma Taken(segs: seq<Segment>, seg: Segment, i: int)
    requires seg.start <= i < seg.end && i in Marked(SlotMap(segs), seg, i)
    ensures !ApartFromAll(segs, seg)
  {
    MarkedAt(SlotMap(segs), seg, i, i);
    SlotMapCovers(segs, i);
    var k :| 0 <= k < |segs| && Covers(segs[k], i);
    assert !Apart(segs[k], seg);
  }

  lemma MarkedLast(segs: seq<Segment>, seg: Segment)
    ensures Marked(SlotMap(segs), seg, seg.end) == SlotMap(segs + [seg])
  {
    assert (segs + [seg])[..|segs|] == segs;
  }

  lemma NoOverlap(segs: seq<Segment>, seg: Segment)
    requires NonEmpty(segs) && seg.start < seg.end
    requires Free(SlotMap(segs), seg.start, seg.end)
    ensures ApartFromAll(segs, seg)
  {
    forall k | 0 <= k < |segs| ensures Apart(segs[k], seg) {
      var j := if segs[k].start < seg.start then seg.start else segs[k].start;
      if !Apart(segs[k], seg) {
        assert Covers(segs[k], j);
        SlotMapCovers(segs, j);
      }
    }
  }

  lemma ParsedStep(conf: seq<PartitionConfig>, i: nat)
    requires i < |conf| && AllParse(conf[..i]) && ParseSegment(conf[i]).Some?
    ensures AllParse(conf[..i + 1])
    ensures Parsed(conf[..i + 1]) == Parsed(conf[..i]) + [ParseSegment(conf[i]).value]
  {
    assert conf[..i + 1] == conf[..i] + [conf[i]];
  }

  lemma DisjointStep(segs: seq<Segment>, seg: Segment)
    requires Disjoint(segs) && NonEmpty(segs) && seg.start < seg.end
    requires forall k | 0 <= k < |segs| :: Apart(segs[k], seg)
    ensures Disjoint(segs + [seg]) && NonEmpty(segs + [seg])
  {
  }

  lemma StartPreorder()
    ensures Preorder(CompareStart)
  {
  }

  lemma NotDisjoint(conf: seq<PartitionConfig>, k: nat, i: nat)
    requires k < i < |conf| && AllParse(conf[..i + 1])
    requires !Apart(Parsed(conf[..i])[k], ParseSegment(conf[i]).value)
    ensures AllParse(conf) ==> !Disjoint(Parsed(conf))
  {
    if AllParse(conf) {
      assert Parsed(conf)[k] == Parsed(conf[..i])[k] && Parsed(conf)[i] == ParseSegment(conf[i]).value;
    }
  }
}
