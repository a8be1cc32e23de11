/** Laying out the slots of a new hash table over backends. */
module SlotLayout {
  import opened Text
  import opened Values
  import opened Sorting
  import opened HashPartition

  datatype LayoutResult =
    | Refused
    | DivisionByZero              // no block fits: the proxy panics
    | Uniform(conf: seq<PartitionConfig>)

  /** The segments lie one after the other from slot 0 up to slot `end`, none of them empty. */
  ghost predicate Tiles(segs: seq<Segment>, end: int) {
    if segs == [] then end == 0
    else
      var last := segs[|segs| - 1];
      last.end == end && last.start < last.end && Tiles(segs[..|segs| - 1], last.start)
  }

  /** The configuration of a partition as it is printed. */
  function Print(seg: Segment): (p: PartitionConfig) {
    PartitionConfig(seg.table, if 0 <= seg.start <= seg.end then Span(seg.start, seg.end) else "", seg.backend)
  }

  /** The configuration consists of the printed segments. */
  ghost predicate Printed(conf: seq<PartitionConfig>, segs: seq<Segment>) {
    |conf| == |segs| && forall k | 0 <= k < |segs| :: conf[k] == Print(segs[k])
  }

  /** Partition tables are numbered in order. */
  ghost predicate Named(segs: seq<Segment>, table: string) {
    NamedBy(segs, (k: nat) => PartName(table, k))
  }

  ghost predicate NamedBy(segs: seq<Segment>, name: nat -> string) {
    forall k | 0 <= k < |segs| :: segs[k].table == name(k)
  }

  lemma NamedByStep(segs: seq<Segment>, seg: Segment, name: nat -> string)
    requires NamedBy(segs, name) && seg.table == name(|segs|)
    ensures NamedBy(segs + [seg], name)
  {
  }

  function PartName(table: string, k: nat): (name: string) {
    table + "_" + Padded(k)
  }

  /** Backend after backend takes the same number of partitions. */
  ghost predicate Spread(segs: seq<Segment>, backends: seq<string>, tables: nat) {
    tables > 0 && forall k | 0 <= k < |segs| :: k / tables < |backends| && segs[k].backend == backends[k / tables]
  }

  lemma TilesStep(segs: seq<Segment>, seg: Segment)
    requires Tiles(segs, seg.start) && seg.start < seg.end
    ensures Tiles(segs + [seg], seg.end)
  {
    assert (segs + [seg])[..|segs|] == segs;
  }

  lemma NamedStep(segs: seq<Segment>, seg: Segment, table: string)
    requires Named(segs, table) && seg.table == PartName(table, |segs|)
    ensures Named(segs + [seg], table)
  {
    NamedByStep(segs, seg, (k: nat) => PartName(table, k));
  }

  lemma PrintedStep(conf: seq<PartitionConfig>, segs: seq<Segment>, seg: Segment)
    requires Printed(conf, segs)
    ensures Printed(conf + [Print(seg)], segs + [seg])
  {
  }

  /** Parsing what was printed restores the segments. */
  lemma PrintedParses(conf: seq<PartitionConfig>, segs: seq<Segment>, slots: int)
    requires Printed(conf, segs) && Tiles(segs, slots) && slots <= MaxInt
    ensures AllParse(conf) && Parsed(conf) == segs
  {
    TilesSound(segs, slots);
    forall k | 0 <= k < |conf| ensures ParseSegment(conf[k]) == Some(segs[k]) {
      ParseSpan(segs[k].table, segs[k].backend, segs[k].start, segs[k].end);
    }
  }

  /** Different partitions of a table have different names. */
  lemma NamesDiffer(segs: seq<Segment>, table: string, i: nat, j: nat)
    requires Named(segs, table) && i < |segs| && j < |segs| && i != j
    ensures segs[i].table != segs[j].table
  {
    if segs[i].table == segs[j].table {
      var prefix := table + "_";
      assert PartName(table, i)[|prefix|..] == Padded(i);
      assert PartName(table, j)[|prefix|..] == Padded(j);
      PaddedInjective(i, j);
    }
  }

  /** A tiling is made of non-empty, disjoint segments inside the slots, as many slots in all. */
  lemma {:induction false} TilesSound(segs: seq<Segment>, end: int)
    requires Tiles(segs, end)
    ensures Disjoint(segs) && NonEmpty(segs) && TotalSize(segs) == end
    ensures end >= 0 && forall k | 0 <= k < |segs| :: 0 <= segs[k].start && segs[k].end <= end
    decreases |segs|
  {
    if segs != [] {
      var n := |segs| - 1;
      TilesSound(segs[..n], segs[n].start);
      assert segs == segs[..n] + [segs[n]];
      forall i | 0 <= i < n ensures HashPartition.Apart(segs[i], segs[n]) && segs[i].end <= end {
        assert segs[i] == segs[..n][i];
      }
      DisjointStep(segs[..n], segs[n]);
    }
  }

  /** A layout that tiles the slots is accepted by Build, and leaves no slot without a segment. */
  lemma LayoutAccepted(conf: seq<PartitionConfig>, segs: seq<Segment>, slots: int)
    requires Printed(conf, segs) && Tiles(segs, slots) && slots <= MaxInt
    ensures Accepted(conf, slots) && Parsed(conf) == segs
    ensures forall i | 0 <= i < slots :: i in SlotMap(segs)
  {
    PrintedParses(conf, segs, slots);
    TilesSound(segs, slots);
    EverySlotCovered(conf, slots);
  }

  // ---------------------------------------------------------------- arithmetic of the layout

  lemma Times(a: nat, b: nat)
    ensures (a + 1) * b == a * b + b
  {
  }

  lemma QuotientFits(a: nat, b: nat)
    requires b > 0
    ensures (a / b) * b <= a && a / b >= 0
    ensures a / b == 0 <==> a < b
  {
  }

  lemma BlockFits(i: nat, blocks: nat, tables: nat)
    requires i < tables
    ensures i * blocks + blocks <= tables * blocks
  {
    Times(i, blocks);
    MulMonotone(i + 1, tables, blocks);
  }

  lemma MulMonotone(a: nat, b: nat, c: nat)
    requires a <= b
    ensures a * c <= b * c
  {
  }

  // ---------------------------------------------------------------- the layout

  /** One backend's share of the slots: `share` slots from `step` on, up to the last slot for the last
      backend, in `tables` partitions of `blocks` slots with what is over in the last one. */
  datatype Shard = Shard(step: nat, share: nat, tables: nat, blocks: nat, last: bool, slots: nat) {
    ghost predicate Valid() {
      0 < blocks && 0 < tables && tables * blocks <= share && step + share <= slots
    }

    function Min(i: nat): (m: nat) {
      i * blocks + step
    }

    function Max(i: nat): (m: nat) {
      if i != tables - 1 then (i + 1) * blocks + step
      else if last then slots
      else step + share
    }

    function End(): (e: nat) {
      if last then slots else step + share
    }
  }

  /** Each partition begins where the one before ends. */
  lemma BoundsFit(d: Shard, i: nat)
    requires d.Valid() && i < d.tables
    ensures d.Min(i) < d.Max(i) <= d.slots
    ensures d.Max(i) == if i + 1 < d.tables then d.Min(i + 1) else d.End()
  {
    Times(i, d.blocks);
    BlockFits(i, d.blocks, d.tables);
  }

  /** The partitions of one backend, numbered from `first` on. */
  method LayShard(table: string, backend: string, d: Shard, first: nat, conf: seq<PartitionConfig>, ghost segs: seq<Segment>)
    returns (conf': seq<PartitionConfig>, ghost segs': seq<Segment>)
    requires d.Valid()
    requires Named(segs, table) && |segs| == first && Tiles(segs, d.step) && Printed(conf, segs)
    ensures Named(segs', table) && |segs'| == first + d.tables && Tiles(segs', d.End()) && Printed(conf', segs')
    ensures segs <= segs' && forall k | first <= k < |segs'| :: segs'[k].backend == backend
  {
    conf', segs' := conf, segs;
    for i := 0 to d.tables
      invariant Laying(table, backend, d, first, segs, conf', segs', i)
    {
      var seg := Segment(PartName(table, first + i), backend, d.Min(i), d.Max(i));
      LayStep(table, backend, d, first, segs, conf', segs', i, seg);
      conf', segs' := conf' + [Print(seg)], segs' + [seg];
    }
  }

  /** The first `i` partitions of the backend are laid after the segments that were there. */
  ghost predicate Laying(table: string, backend: string, d: Shard, first: nat, segs: seq<Segment>, conf': seq<PartitionConfig>, segs': seq<Segment>, i: nat) {
    && Named(segs', table) && |segs'| == first + i && Printed(conf', segs')
    && segs <= segs' && (forall k | first <= k < |segs'| :: segs'[k].backend == backend)
    && Tiles(segs', if i < d.tables then d.Min(i) else d.End())
  }

  lemma LayStep(table: string, backend: string, d: Shard, first: nat, segs: seq<Segment>, conf': seq<PartitionConfig>, segs': seq<Segment>, i: nat, seg: Segment)
    requires d.Valid() && i < d.tables && Laying(table, backend, d, first, segs, conf', segs', i)
    requires seg.table == PartName(table, first + i) && seg.backend == backend && seg.start == d.Min(i) && seg.end == d.Max(i)
    ensures Laying(table, backend, d, first, segs, conf' + [Print(seg)], segs' + [seg], i + 1)
  {
    BoundsFit(d, i);
    TilesStep(segs', seg);
    NamedStep(segs', seg, table);
    PrintedStep(conf', segs', seg);
  }

  lemma ShardFits(s: nat, nums: nat, slots: nat, share: nat, tables: nat, blocks: nat)
    requires s < nums && share == slots / nums && 0 < blocks && tables == share / blocks > 0
    ensures Shard(s * share, share, tables, blocks, s == nums - 1, slots).Valid()
    ensures (s + 1) * share == s * share + share && (s + 1) * tables == s * tables + tables
  {
    QuotientFits(slots, nums);
    QuotientFits(share, blocks);
    MulMonotone(s + 1, nums, share);
    Times(s, share);
    Times(s, tables);
  }

  lemma SpreadStep(segs: seq<Segment>, segs': seq<Segment>, backends: seq<string>, tables: nat, s: nat)
    requires Spread(segs, backends, tables) && segs <= segs' && s < |backends|
    requires |segs| == s * tables && |segs'| == s * tables + tables
    requires forall k | |segs| <= k < |segs'| :: segs'[k].backend == backends[s]
    ensures Spread(segs', backends, tables)
  {
    forall k | 0 <= k < |segs'| ensures k / tables < |backends| && segs'[k].backend == backends[k / tables] {
      if k >= |segs| {
        QuotientIs(k, tables, s);
      } else {
        assert segs'[k] == segs[k];
      }
    }
  }

  lemma QuotientIs(k: nat, b: nat, q: nat)
    requires b > 0 && q * b <= k < q * b + b
    ensures k / b == q
  {
    if k / b < q {
      MulMonotone(k / b + 1, q, b);
    } else if k / b > q {
      MulMonotone(q + 1, k / b, b);
    }
  }

  /** The partitions of every backend. */
  method LayShards(table: string, backends: seq<string>, slots: nat, blocks: nat)
    returns (conf: seq<PartitionConfig>, ghost segs: seq<Segment>)
    requires 0 < |backends| <= slots && 0 < blocks
    ensures Named(segs, table) && Printed(conf, segs)
    ensures slots / |backends| >= blocks ==> Tiles(segs, slots) && Spread(segs, backends, TablesPerShard(slots, |backends|, blocks))
    ensures slots / |backends| < blocks ==> segs == []
  {
    conf, segs := [], [];
    var nums := |backends|;
    var slotsPerShard := slots / nums;
    var tablesPerShard := TablesPerShard(slots, nums, blocks);
    QuotientFits(slots, nums);
    QuotientFits(slotsPerShard, blocks);
    if tablesPerShard == 0 {
      return;
    }
    var s := 0;
    ghost var edge := 0;
    while s < nums
      invariant 0 <= s <= nums
      invariant Named(segs, table) && |segs| == s * tablesPerShard && Printed(conf, segs)
      invariant Spread(segs, backends, tablesPerShard)
      invariant edge == (if s == nums then slots else s * slotsPerShard) && Tiles(segs, edge)
    {
      ShardFits(s, nums, slots, slotsPerShard, tablesPerShard, blocks);
      var d := Shard(s * slotsPerShard, slotsPerShard, tablesPerShard, blocks, s == nums - 1, slots);
      ghost var before := segs;
      conf, segs := LayShard(table, backends[s], d, s * tablesPerShard, conf, segs);
      SpreadStep(before, segs, backends, tablesPerShard, s);
      edge := d.End();
      s := s + 1;
    }
  }

  predicate AllowedNum(num: Option<int>) {
    num == Some(8) || num == Some(16) || num == Some(32) || num == Some(64)
  }

  /** Slots to a partition. */
  function BlockSize(partitionNum: Option<string>, slots: nat, defaultBlocks: nat): (blocks: nat) {
    if partitionNum.Some? && AllowedNum(Atoi(partitionNum.value)) then slots / Atoi(partitionNum.value).value
    else defaultBlocks
  }

  function TablesPerShard(slots: nat, nums: nat, blocks: nat): (t: nat)
    requires nums > 0 && blocks > 0
  {
    slots / nums / blocks
  }

  /** A backend's share of the slots holds at least one block. */
  predicate HoldsBlock(slots: nat, nums: nat, blocks: nat) {
    nums > 0 && slots / nums >= blocks
  }

  /** The partitions tile the slots, are numbered in order and spread over the backends in order. */
  ghost predicate LaidOut(conf: seq<PartitionConfig>, table: string, backends: seq<string>, slots: nat, blocks: nat) {
    && backends != [] && blocks > 0 && AllParse(conf)
    && Tiles(Parsed(conf), slots) && Named(Parsed(conf), table)
    && Spread(Parsed(conf), backends, TablesPerShard(slots, |backends|, blocks))
  }

  /** Lays the slots out evenly. With a partition number, the block size is chosen to give that many
      partitions. The segments tile the slots exactly when a backend's share holds at least a block;
      otherwise there are no partitions at all. */
  method HashUniform(table: string, shardkey: string, backends: seq<string>, partitionNum: Option<string>, slots: nat, defaultBlocks: nat)
    returns (r: LayoutResult, sorted: seq<string>)
    requires 0 < slots <= MaxInt && 0 < defaultBlocks
    ensures r.Refused? <==>
      || table == "" || shardkey == ""
      || (partitionNum.Some? && !AllowedNum(Atoi(partitionNum.value)))
      || |backends| == 0 || |backends| >= slots
    ensures r.DivisionByZero? ==> BlockSize(partitionNum, slots, defaultBlocks) == 0
    ensures r.Uniform? ==> BlockSize(partitionNum, slots, defaultBlocks) > 0
    ensures r.Uniform? ==> (Accepted(r.conf, slots) <==> HoldsBlock(slots, |backends|, BlockSize(partitionNum, slots, defaultBlocks)))
    ensures r.Uniform? ==>
      if HoldsBlock(slots, |backends|, BlockSize(partitionNum, slots, defaultBlocks))
      then LaidOut(r.conf, table, sorted, slots, BlockSize(partitionNum, slots, defaultBlocks))
      else r.conf == []
    ensures r.Uniform? ==> multiset(sorted) == multiset(backends) && Sorted(sorted, CompareStrings)
  {
    sorted := backends;
    if table == "" || shardkey == "" {
      return Refused, sorted;
    }
    var blocks := defaultBlocks;
    if partitionNum.Some? {
      var num := Atoi(partitionNum.value);
      if !AllowedNum(num) {
        return Refused, sorted;
      }
      blocks := slots / num.value;
    }
    var nums := |backends|;
    if nums == 0 || nums >= slots {
      return Refused, sorted;
    }
    StringPreorder();
    sorted := Sort(backends, CompareStrings);
    if blocks == 0 {
      return DivisionByZero, sorted;
    }
    assert |sorted| == |multiset(sorted)| == |multiset(backends)| == nums;
    var conf;
    ghost var segs;
    conf, segs := LayShards(table, sorted, slots, blocks);
    if slots / nums >= blocks {
      LayoutAccepted(conf, segs, slots);
    } else {
      assert Parsed(conf) == [];
    }
    return Uniform(conf), sorted;
  }

  /** Eight partitions of 4096 slots on sixteen backends: a share of 256 slots holds no block of 512, and the table
      gets no partition. */
  method NoPartitions(table: string, shardkey: string, backends: seq<string>) returns (r: LayoutResult)
    requires table != "" && shardkey != "" && |backends| == 16
    ensures r == Uniform([]) && !Accepted(r.conf, 4096)
  {
    AtoiItoa(8);
    var sorted;
    r, sorted := HashUniform(table, shardkey, backends, Some(Itoa(8)), 4096, 64);
  }

  /** Eight partitions of four slots: blocks of no slots. */
  method DividesByZero(table: string, shardkey: string, backend: string) returns (r: LayoutResult)
    requires table != "" && shardkey != ""
    ensures r.DivisionByZero?
  {
    AtoiItoa(8);
    var sorted;
    r, sorted := HashUniform(table, shardkey, [backend], Some(Itoa(8)), 4, 64);
  }
}
