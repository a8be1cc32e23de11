/** One key written in two ways: an integer and a string literal of the same value hash differently, and
    a statement with the one does not find the row stored with the other. */
module KeySpelling {
  import opened Text
  import opened Bags
  import opened Values
  import opened HashPartition
  import opened Router
  import opened Predicates
  import opened ShardRouting
  import opened InsertPlan
  import opened ShardedTable

  /** `shardkey = literal`. */
  function KeyIs(def: TableDef, l: Literal): (e: Expr) {
    ComparisonExpr(EqualOp, ColName(Column("", def.shardKey)), SQLVal(l))
  }

  lemma KeyIsComparison(def: TableDef, l: Literal)
    ensures KeyComparison(def, KeyIs(def, l)) && Conditions(KeyIs(def, l)) == [KeyIs(def, l)] && Decides(def, KeyIs(def, l), 0)
    ensures forall m :: KeyLists(def, KeyIs(def, l), m) <==> m == l
  {
    forall m ensures KeyLists(def, KeyIs(def, l), m) <==> m == l {
      ComparisonLists(def, KeyIs(def, l), m);
    }
  }

  /** A table with one row, of the key the literal stands for. */
  function OneRow(h: Hash, def: TableDef, l: Literal): (parts: Parts)
    reads h
  {
    Lone(h, def, RowWithKey(def, def.means(l)))
  }

  lemma OneRowAffected(h: Hash, def: TableDef, l: Literal)
    requires Ready(h, def)
    ensures Affected(def, Remove(Some(KeyIs(def, l))), Flat(h.segments, OneRow(h, def, l))) == 1
  {
    var c, parts, home := Remove(Some(KeyIs(def, l))), OneRow(h, def, l), HomeOf(h, def, def.means(l));
    SlotHasSegment(h, def, def.slot(def.means(l)));
    BuiltDistinct(h);
    var i: nat :| i < |h.segments| && h.segments[i] == home;
    WithoutDistinct(h.segments, i);
    forall s | s in Without(h.segments, i) ensures Affected(def, c, RowsOf(parts, s.table)) == 0 {
      if s.table == home.table {
        TablesDiffer(h, def, s, home);
      }
    }
    NoneAffected(def, c, Without(h.segments, i), parts);
    AffectedWithout(def, c, h.segments, i, parts);
    AffectedFlat(def, c, h.segments, parts);
    KeyIsComparison(def, l);
    ListedRowMeets(def, KeyIs(def, l), l, RowWithKey(def, def.means(l)));
    ApplySingle(def, c, RowWithKey(def, def.means(l)));
  }

  /** Whatever the table: a key that does not hash into the partition of its value misses rows. DELETE
      WHERE shardkey = literal has one row to delete, and the partition it goes to has none. */
  lemma MisspelledMisses(h: Hash, def: TableDef, l: Literal)
    requires Ready(h, def) && h.hash(l).Some? && !Spelled(h, def, l)
    ensures Placed(h, def, OneRow(h, def, l))
    ensures Affected(def, Remove(Some(KeyIs(def, l))), Flat(h.segments, OneRow(h, def, l))) == 1
    ensures AffectedIn(def, Remove(Some(KeyIs(def, l))), [SegmentAt(h, h.hash(l).value)], OneRow(h, def, l)) == 0
  {
    var s, home := SegmentAt(h, h.hash(l).value), HomeOf(h, def, def.means(l));
    LonePlaced(h, def, RowWithKey(def, def.means(l)));
    OneRowAffected(h, def, l);
    SlotHasSegment(h, def, h.hash(l).value);
    SlotHasSegment(h, def, def.slot(def.means(l)));
    if s.table == home.table {
      TablesDiffer(h, def, s, home);
    }
    NoneAffected(def, Remove(Some(KeyIs(def, l))), [s], OneRow(h, def, l));
  }

  // ---------------------------------------------------------------- key 1 and key '1'

  function NumberOf(text: string): (n: int) {
    var n := Atoi(text);
    if n.Some? then n.value else 0
  }

  /** Ten times the number that a text with one decimal, or with none, shows. */
  function Tenths(text: string): (n: int) {
    var m := |text| - 2;
    if m >= 0 && text[m] == '.' then 10 * NumberOf(text[..m]) + NumberOf(text[m + 1..]) else 10 * NumberOf(text)
  }

  function NumberValue(n: int): (v: Known) {
    Val(n as real, n != 0, "")
  }

  /** Two slots. Integers hash by their value, decimals without what is behind the point; strings hash differently. */
  function ByKind(l: Literal): (slot: Option<int>) {
    match l.kind
    case IntVal => if Atoi(l.text).Some? then Some(NumberOf(l.text) % 2) else None
    case FloatVal => Some(Tenths(l.text) / 10 % 2)
    case StrVal => Some((NumberOf(l.text) + 1) % 2)
    case OtherVal => None
  }

  /** The value a literal shows. */
  function Shown(l: Literal): (v: Known) {
    if l.kind == FloatVal then Val(Tenths(l.text) as real / 10.0, Tenths(l.text) != 0, "") else NumberValue(NumberOf(l.text))
  }

  function ShownEnv(row: Row): (env: Env) {
    Env((q, n) => Col(row, 0), Shown, n => Null, vs => Null, (op, a, b) => Unknown)
  }

  /** A table in which literals stand for the numbers they show; the slot of a key depends on the type of its column. */
  function Table(name: string, slot: Value -> int): (def: TableDef) {
    TableDef(name, "id", 0, Shown, slot, ShownEnv)
  }

  function IntegerSlot(v: Value): (slot: int) {
    if v.Val? then v.rank.Floor % 2 else 0
  }

  /** A table with an integer key. */
  const Numbers: TableDef := Table("t", IntegerSlot)

  function Halves(first: string, second: string): (conf: seq<PartitionConfig>) {
    [PartitionConfig(first, Span(0, 1), "b0"), PartitionConfig(second, Span(1, 2), "b1")]
  }

  /** The key 1, written as an integer and as a string. */
  predicate IsOne(l: Literal) {
    l.kind == IntVal && Atoi(l.text) == Some(1)
  }

  predicate IsQuotedOne(l: Literal) {
    l.kind == StrVal && Atoi(l.text) == Some(1)
  }

  lemma TwoAccepted(p: PartitionConfig, q: PartitionConfig)
    requires ParseSegment(p) == Some(Segment(p.table, "b0", 0, 1)) && ParseSegment(q) == Some(Segment(q.table, "b1", 1, 2))
    ensures Accepted([p, q], 2) && Parsed([p, q]) == [Segment(p.table, "b0", 0, 1), Segment(q.table, "b1", 1, 2)]
  {
    var segs := Parsed([p, q]);
    assert segs == [Segment(p.table, "b0", 0, 1), Segment(q.table, "b1", 1, 2)];
    assert segs[..1] == [segs[0]] && [segs[0]][..0] == [];
    assert TotalSize([segs[0]]) == 1;
  }

  lemma HalvesAccepted(first: string, second: string)
    ensures Accepted(Halves(first, second), 2)
    ensures Parsed(Halves(first, second)) == [Segment(first, "b0", 0, 1), Segment(second, "b1", 1, 2)]
  {
    ParseSpan(first, "b0", 0, 1);
    ParseSpan(second, "b1", 1, 2);
    TwoAccepted(Halves(first, second)[0], Halves(first, second)[1]);
  }

  lemma TableRead(name: string, slot: Value -> int)
    ensures ReadsKey(Table(name, slot))
  {
    var def := Table(name, slot);
    forall row, l: Literal ensures def.interp(row).literal(l) == def.means(l) {
    }
    forall row
      ensures def.interp(row).column("", Fold(def.shardKey)) == KeyOf(def, row)
      ensures def.interp(row).column(def.name, Fold(def.shardKey)) == KeyOf(def, row)
    {
    }
  }

  /** The slots of key values are the two there are, and equal values have the same. */
  ghost predicate TwoSlots(slot: Value -> int) {
    (forall v: Known :: 0 <= slot(v) < 2) && (forall v, w | SqlEqual(v, w) :: slot(v) == slot(w))
  }

  /** The table is built on two partitions. */
  ghost predicate InHalves(h: Hash, def: TableDef)
    reads h
  {
    h.slots == 2 && h.hash == ByKind && Ready(h, def) && exists first, second :: first != second && h.conf == Halves(first, second)
  }

  method BuildHalves(first: string, second: string, name: string, slot: Value -> int) returns (h: Hash)
    requires first != second && TwoSlots(slot)
    ensures fresh(h) && InHalves(h, Table(name, slot)) && h.conf == Halves(first, second)
  {
    HalvesAccepted(first, second);
    h := new Hash(2, Halves(first, second), ByKind);
    var built := h.Build();
    HalvesReady(h, first, second, name, slot);
  }

  lemma HalvesReady(h: Hash, first: string, second: string, name: string, slot: Value -> int)
    requires h.Built() && h.slots == 2 && h.hash == ByKind && h.conf == Halves(first, second) && first != second && TwoSlots(slot)
    ensures InHalves(h, Table(name, slot))
  {
    HalvesWithin(first, second);
    TableRead(name, slot);
    HalvesFit(h, name, slot);
  }

  lemma HalvesFit(h: Hash, name: string, slot: Value -> int)
    requires h.slots == 2 && h.hash == ByKind && TwoSlots(slot)
    ensures SlotsFit(h, Table(name, slot))
  {
  }

  lemma HalvesWithin(first: string, second: string)
    requires first != second
    ensures var conf := Halves(first, second);
      && AllParse(conf) && (forall k | 0 <= k < |conf| :: Parsed(conf)[k].end <= 2)
      && (forall i, j | 0 <= i < j < |conf| :: conf[i].table != conf[j].table)
  {
    HalvesAccepted(first, second);
  }

  /** The backend stores the key it was sent; an integer column rounds it. */
  function StoreInteger(row: seq<Expr>): (r: Row) {
    [if row != [] && row[0].SQLVal?
     then if row[0].val.kind == FloatVal then NumberValue((Tenths(row[0].val.text) + 5) / 10) else Shown(row[0].val)
     else Null]
  }

  lemma OneMeans(l: Literal)
    requires IsOne(l) || IsQuotedOne(l)
    ensures Shown(l) == NumberValue(1) && ByKind(l) == Some(if l.kind == IntVal then 1 else 0)
  {
  }

  /** There are such literals. */
  lemma OneWritten()
    ensures IsOne(Literal(IntVal, Itoa(1))) && IsQuotedOne(Literal(StrVal, Itoa(1)))
  {
    AtoiItoa(1);
  }

  /** Integer keys are always written right. */
  lemma IntegersSpelled(h: Hash, l: Literal)
    requires h.hash == ByKind && l.kind == IntVal
    ensures Spelled(h, Numbers, l)
  {
    assert Numbers.slot(Numbers.means(l)) == NumberOf(l.text) % 2;
  }

  lemma IdIsKey(name: string, slot: Value -> int, k: nat)
    ensures IsKeyColumn(Table(name, slot), ["id"], k) <==> k == 0
  {
    assert EqualFold("id", "id");
  }

  /** INSERT of one key into the empty table. */
  method InsertKey(h: Hash, name: string, slot: Value -> int, l: Literal) returns (t: Sharded)
    requires InHalves(h, Table(name, slot)) && h.hash(l).Some? && l.kind != FloatVal && Spelled(h, Table(name, slot), l)
    ensures fresh(t) && t.h == h && t.def == Table(name, slot) && t.Valid() && t.logical == [[Shown(l)]]
  {
    t := new Sharded(h, Table(name, slot));
    KeySent(h, name, slot, l);
    var ok := t.Insert(["id"], [[SQLVal(l)]], StoreInteger);
    assert t.logical == [] + Stored(StoreInteger, [[SQLVal(l)]]);
  }

  lemma KeySent(h: Hash, name: string, slot: Value -> int, l: Literal)
    requires InHalves(h, Table(name, slot)) && h.hash(l).Some? && l.kind != FloatVal && Spelled(h, Table(name, slot), l)
    ensures RowsHome(h, Table(name, slot), ["id"], [[SQLVal(l)]], StoreInteger)
    ensures IsKeyColumn(Table(name, slot), ["id"], 0) && AllTargeted(h, 0, [[SQLVal(l)]])
    ensures StoreInteger([SQLVal(l)]) == [Shown(l)]
  {
    IdIsKey(name, slot, 0);
    forall k: nat, row: seq<Expr> | IsKeyColumn(Table(name, slot), ["id"], k) && row in [[SQLVal(l)]] && k < |row| && row[k].SQLVal?
      ensures StoredHome(h, Table(name, slot), row[k].val, StoreInteger(row))
    {
      IdIsKey(name, slot, k);
      assert row == [SQLVal(l)];
    }
  }

  lemma HitKey(row: Row, quoted: Literal)
    requires IsQuotedOne(quoted) && Keyed(Numbers, row) && Eval(KeyIs(Numbers, quoted), Numbers.interp(row)) == True
    ensures Numbers.slot(KeyOf(Numbers, row)) == 1
  {
    OneMeans(quoted);
    TableRead("t", IntegerSlot);
    KeyIsComparison(Numbers, quoted);
    EqualListsKey(Numbers, KeyIs(Numbers, quoted), row);
    assert KeyOf(Numbers, row).rank == 1.0;
  }

  lemma CoversOne(h: Hash, s: Segment)
    requires InHalves(h, Numbers) && s in h.segments
    ensures !(Covers(s, 0) && Covers(s, 1))
  {
    var first, second :| first != second && h.conf == Halves(first, second);
    HalvesAccepted(first, second);
    SegmentsAreParsed(h, s);
  }

  /** No row of the first half has the key 1. */
  lemma FirstHalfUnhit(h: Hash, parts: Parts, s: Segment, quoted: Literal)
    requires IsQuotedOne(quoted) && InHalves(h, Numbers) && Placed(h, Numbers, parts) && s in h.segments && Covers(s, 0)
    ensures Affected(Numbers, Remove(Some(KeyIs(Numbers, quoted))), RowsOf(parts, s.table)) == 0
  {
    CoversOne(h, s);
    forall r | r in RowsOf(parts, s.table) ensures !Hits(Numbers, Remove(Some(KeyIs(Numbers, quoted))), r) {
      assert AtHome(h, Numbers, s, r);
      HomeExists(h, Numbers, r);
      if Hits(Numbers, Remove(Some(KeyIs(Numbers, quoted))), r) {
        HitKey(r, quoted);
      }
    }
    NoHits(Numbers, Remove(Some(KeyIs(Numbers, quoted))), RowsOf(parts, s.table));
  }

  lemma OneHit(row: Row, quoted: Literal)
    requires IsQuotedOne(quoted) && row == [NumberValue(1)]
    ensures Affected(Numbers, Remove(Some(KeyIs(Numbers, quoted))), [row]) == 1
  {
    OneMeans(quoted);
    KeyIsComparison(Numbers, quoted);
    TableRead("t", IntegerSlot);
    ListedRowMeets(Numbers, KeyIs(Numbers, quoted), quoted, row);
    ApplySingle(Numbers, Remove(Some(KeyIs(Numbers, quoted))), row);
  }

  /** The DELETE is routed, to segments without a row of the key. */
  lemma QuotedRoute(h: Hash, segs: Option<seq<Segment>>, parts: Parts, quoted: Literal)
    requires IsQuotedOne(quoted) && InHalves(h, Numbers) && Placed(h, Numbers, parts)
    requires segs.None? ==> CannotRoute(h, Numbers, Some(KeyIs(Numbers, quoted)))
    requires segs.Some? ==> NoneSpare(h, Numbers, KeyIs(Numbers, quoted), segs.value)
    ensures segs.Some? && AffectedIn(Numbers, Remove(Some(KeyIs(Numbers, quoted))), segs.value, parts) == 0
  {
    KeyIsComparison(Numbers, quoted);
    var e := KeyIs(Numbers, quoted);
    OneMeans(quoted);
    forall s | s in segs.value ensures Affected(Numbers, Remove(Some(e)), RowsOf(parts, s.table)) == 0 {
      assert Needed(h, Numbers, e, s);
      FirstHalfUnhit(h, parts, s, quoted);
    }
    NoneAffected(Numbers, Remove(Some(e)), segs.value, parts);
  }

  /** DELETE WHERE id = '1', planned and run. */
  method DeleteQuoted(t: Sharded, quoted: Literal) returns (affected: nat)
    requires IsQuotedOne(quoted) && t.Valid() && t.def == Numbers && InHalves(t.h, Numbers)
    modifies t`parts
    ensures affected == 0
  {
    var segs := PlanDelete(t.h, Numbers, Some(KeyIs(Numbers, quoted)));
    QuotedRoute(t.h, segs, t.parts, quoted);
    ReadyDistinct(t.h, Numbers);
    affected := t.RunOnSegments(Remove(Some(KeyIs(Numbers, quoted))), segs.value);
  }

  /** A table with an integer key and its row of the key 1. */
  method NumbersWithOne(one: Literal) returns (t: Sharded)
    requires IsOne(one)
    ensures fresh(t) && fresh(t.h) && t.def == Numbers && t.Valid() && InHalves(t.h, Numbers) && t.h.conf == Halves("t_0", "t_1")
    ensures t.logical == [[NumberValue(1)]]
  {
    assert "t_0"[2] != "t_1"[2];
    var h := BuildHalves("t_0", "t_1", "t", IntegerSlot);
    OneMeans(one);
    IntegersSpelled(h, one);
    t := InsertKey(h, "t", IntegerSlot, one);
  }

  /** INSERT of key 1, then DELETE WHERE id = '1': the one row of the table meets the condition, and no
      row is deleted. */
  method MixedSpelling(one: Literal, quoted: Literal) returns (t: Sharded, affected: nat)
    requires IsOne(one) && IsQuotedOne(quoted)
    ensures t.logical == [[NumberValue(1)]] && t.def == Numbers
    ensures Affected(Numbers, Remove(Some(KeyIs(Numbers, quoted))), t.logical) == 1
    ensures affected == 0
  {
    t := NumbersWithOne(one);
    OneHit(t.logical[0], quoted);
    affected := DeleteQuoted(t, quoted);
  }

  // ---------------------------------------------------------------- key 1.6

  predicate IsOneSix(l: Literal) {
    l.kind == FloatVal && Tenths(l.text) == 16
  }

  lemma OneSixWritten()
    ensures IsOneSix(Literal(FloatVal, Itoa(1) + "." + Itoa(6)))
  {
    var text := Itoa(1) + "." + Itoa(6);
    AtoiItoa(1);
    AtoiItoa(6);
    assert text[..1] == Itoa(1) && text[2..] == Itoa(6);
  }

  lemma Rounded(l: Literal)
    requires IsOneSix(l)
    ensures ByKind(l) == Some(1) && Numbers.slot(Shown(l)) == 1 && StoreInteger([SQLVal(l)]) == [NumberValue(2)] && Numbers.slot(NumberValue(2)) == 0
  {
  }

  /** INSERT of 1.6 into an integer key goes to the partition of 1.6, which is that of 1. It is stored as 2, which belongs
      to the other partition. */
  lemma RoundedAway(h: Hash, l: Literal)
    requires InHalves(h, Numbers) && IsOneSix(l)
    ensures Spelled(h, Numbers, l) && Target(h, 0, [SQLVal(l)]).Some? && StoreInteger([SQLVal(l)]) == [NumberValue(2)]
    ensures !AtHome(h, Numbers, Target(h, 0, [SQLVal(l)]).value, [NumberValue(2)])
  {
    Rounded(l);
    SlotHasSegment(h, Numbers, 0);
    SlotHasSegment(h, Numbers, 1);
    CoversOne(h, SegmentAt(h, 1));
    TargetIsHome(h, Numbers, 0, [SQLVal(l)], [NumberValue(2)]);
  }
}
