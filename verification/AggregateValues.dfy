/** The five aggregate functions: their SQL meaning on the values of a group, and their computation row by
    row, from rows of a table or from partial results of shards. Arithmetic is that of the reals. */
module AggregateValues {
  import opened Text
  import opened Bags
  import opened Values
  import opened AggregatePlan

  /** A computed number; its text is of no interest here. */
  function Number(x: real): (v: Value) {
    Val(x, x != 0.0, "")
  }

  /** Equal as the comparison of values sees them, NULL with NULL. */
  predicate Same(a: Value, b: Value) {
    (a.Null? && b.Null?) || (a.Val? && b.Val? && a.rank == b.rank)
  }

  lemma SameCompare(a: Value, b: Value)
    ensures Same(a, b) <==> NullsafeCompare(a, b) == 0
  {
  }

  // ---------------------------------------------------------------- meaning

  function NonNulls(vs: seq<Value>): (n: nat) {
    if vs == [] then 0 else NonNulls(vs[..|vs| - 1]) + if vs[|vs| - 1].Val? then 1 else 0
  }

  function Total(vs: seq<Value>): (x: real) {
    if vs == [] then 0.0 else Total(vs[..|vs| - 1]) + if vs[|vs| - 1].Val? then vs[|vs| - 1].rank else 0.0
  }

  /** The smaller or the larger of two values, the other one when one is NULL. */
  function Extreme(a: Value, b: Value, least: bool): (v: Value) {
    if a.Null? then b
    else if b.Null? then a
    else if least == (NullsafeCompare(a, b) < 0) then a
    else b
  }

  function ExtremeOf(vs: seq<Value>, least: bool): (v: Value) {
    if vs == [] then Null else Extreme(ExtremeOf(vs[..|vs| - 1], least), vs[|vs| - 1], least)
  }

  /** The aggregate of the values, NULLs left out. */
  function SqlAggregate(typ: AggrType, vs: seq<Value>): (v: Value) {
    match typ
    case Count => Number(NonNulls(vs) as real)
    case Sum => if NonNulls(vs) == 0 then Null else Number(Total(vs))
    case Avg => if NonNulls(vs) == 0 then Null else Number(Total(vs) / NonNulls(vs) as real)
    case Min => ExtremeOf(vs, true)
    case Max => ExtremeOf(vs, false)
  }

  /** MIN and MAX are one of the values, and no value is beyond them; they are NULL when there is none. */
  lemma {:induction false} ExtremeIsExtreme(vs: seq<Value>, least: bool)
    ensures ExtremeOf(vs, least).Null? <==> NonNulls(vs) == 0
    ensures ExtremeOf(vs, least).Val? ==> ExtremeOf(vs, least) in vs
    ensures forall v | v in vs && v.Val? ::
              ExtremeOf(vs, least).Val? && if least then ExtremeOf(vs, least).rank <= v.rank else v.rank <= ExtremeOf(vs, least).rank
    decreases |vs|
  {
    if vs != [] {
      var n := |vs| - 1;
      ExtremeIsExtreme(vs[..n], least);
      assert vs == vs[..n] + [vs[n]];
    }
  }

  lemma {:induction false} NumbersAppend(a: seq<Value>, b: seq<Value>)
    ensures NonNulls(a + b) == NonNulls(a) + NonNulls(b) && Total(a + b) == Total(a) + Total(b)
    decreases |b|
  {
    if b == [] {
      assert a + b == a;
    } else {
      assert (a + b)[..|a + b| - 1] == a + b[..|b| - 1];
      NumbersAppend(a, b[..|b| - 1]);
    }
  }

  lemma {:induction false} ExtremeAppend(a: seq<Value>, b: seq<Value>, least: bool)
    ensures Same(ExtremeOf(a + b, least), Extreme(ExtremeOf(a, least), ExtremeOf(b, least), least))
    decreases |b|
  {
    if b == [] {
      assert a + b == a;
    } else {
      assert (a + b)[..|a + b| - 1] == a + b[..|b| - 1];
      ExtremeAppend(a, b[..|b| - 1], least);
    }
  }

  lemma {:induction false} NoneTotal(vs: seq<Value>)
    requires NonNulls(vs) == 0
    ensures Total(vs) == 0.0
    decreases |vs|
  {
    if vs != [] {
      NoneTotal(vs[..|vs| - 1]);
    }
  }

  // ---------------------------------------------------------------- row by row

  function NullsafeSum(a: Value, b: Value): (v: Value) {
    if a.Null? then b else if b.Null? then a else Number(a.rank + b.rank)
  }

  function NullsafeDiv(a: Value, b: Value): (v: Value) {
    if a.Null? || b.Null? || b.rank == 0.0 then Null else Number(a.rank / b.rank)
  }

  /** What is kept for an aggregate while the rows of a group go by. */
  datatype Ctx = Ctx(count: nat, val: Value)

  function InitCtx(pd: bool, a: Aggregator, x: Option<Row>): (c: Ctx) {
    var v := if x.Some? then Col(x.value, a.index) else Null;
    Ctx(if !pd && v.Val? then 1 else 0, v)
  }

  function UpdateCtx(pd: bool, a: Aggregator, x: Row, ctx: Ctx): (c: Ctx) {
    var v := Col(x, a.index);
    if v.Null? then ctx
    else
      match a.typ
      case Min => ctx.(val := Extreme(ctx.val, v, true))
      case Max => ctx.(val := Extreme(ctx.val, v, false))
      case Sum => Ctx(ctx.count + 1, NullsafeSum(ctx.val, v))
      case Count => if pd then ctx.(val := NullsafeSum(ctx.val, v)) else ctx.(count := ctx.count + 1)
      case Avg => if pd then ctx else Ctx(ctx.count + 1, NullsafeSum(ctx.val, v))
  }

  function ResultOf(pd: bool, a: Aggregator, ctx: Ctx): (v: Value) {
    match a.typ
    case Avg => if pd then Null else NullsafeDiv(ctx.val, Number(ctx.count as real))
    case Min => ctx.val
    case Max => ctx.val
    case Sum => ctx.val
    case Count => if pd then ctx.val else Number(ctx.count as real)
  }

  /** The cell an aggregate reads stands for the values: it is their partial result when the aggregate is
      pushed down, else it is the one value itself. */
  predicate CellIs(pd: bool, typ: AggrType, v: Value, vs: seq<Value>) {
    if pd then typ == Avg || Same(v, SqlAggregate(typ, vs)) else |vs| == 1 && Same(v, vs[0])
  }

  predicate CtxIs(pd: bool, typ: AggrType, ctx: Ctx, vs: seq<Value>) {
    match typ
    case Avg => pd || (Same(ctx.val, SqlAggregate(AggrType.Sum, vs)) && ctx.count == NonNulls(vs))
    case Count => if pd then Same(ctx.val, SqlAggregate(AggrType.Count, vs)) else ctx.count == NonNulls(vs)
    case _ => Same(ctx.val, SqlAggregate(typ, vs))
  }

  lemma OneValue(v: Value)
    ensures NonNulls([v]) == (if v.Val? then 1 else 0) && Total([v]) == (if v.Val? then v.rank else 0.0)
    ensures ExtremeOf([v], true) == v && ExtremeOf([v], false) == v
  {
    assert [v][..0] == [];
  }

  lemma InitIs(pd: bool, a: Aggregator, row: Row, vs: seq<Value>)
    requires CellIs(pd, a.typ, Col(row, a.index), vs)
    ensures CtxIs(pd, a.typ, InitCtx(pd, a, Some(row)), vs)
  {
    if !pd {
      assert vs == [vs[0]];
      OneValue(vs[0]);
    }
  }

  /** One more row: what is kept stands for the values so far and those of the row. */
  lemma UpdateIs(pd: bool, a: Aggregator, row: Row, ctx: Ctx, vs: seq<Value>, more: seq<Value>)
    requires CtxIs(pd, a.typ, ctx, vs) && CellIs(pd, a.typ, Col(row, a.index), more)
    ensures CtxIs(pd, a.typ, UpdateCtx(pd, a, row, ctx), vs + more)
  {
    NumbersAppend(vs, more);
    ExtremeAppend(vs, more, true);
    ExtremeAppend(vs, more, false);
    if !pd {
      assert more == [more[0]];
      OneValue(more[0]);
    }
    if NonNulls(vs) == 0 {
      NoneTotal(vs);
    }
    if NonNulls(more) == 0 {
      NoneTotal(more);
    }
  }

  /** Not pushed down, or not an average: the result is the aggregate of the values. */
  lemma ResultIs(pd: bool, a: Aggregator, ctx: Ctx, vs: seq<Value>)
    requires CtxIs(pd, a.typ, ctx, vs) && !(pd && a.typ == Avg)
    ensures Same(ResultOf(pd, a, ctx), SqlAggregate(a.typ, vs))
  {
  }

  /** The average of pushed-down sums and counts. */
  lemma AverageIs(sum: Ctx, count: Ctx, vs: seq<Value>)
    requires CtxIs(true, AggrType.Sum, sum, vs) && CtxIs(true, AggrType.Count, count, vs)
    ensures Same(NullsafeDiv(sum.val, count.val), SqlAggregate(Avg, vs))
  {
  }

  /** Without rows, what is not pushed down is right, and so is everything but a count that is. */
  lemma NoRowsIs(pd: bool, a: Aggregator)
    ensures CtxIs(pd, a.typ, InitCtx(pd, a, None), []) <==> !(pd && a.typ == Count)
  {
  }
}
