/** Streaming a select: one producer for each shard's cursor, a bounded channel of rows, and a consumer that
    hands them on in batches. Every interleaving of the goroutines is a run of the step system below. */
module StreamFetch {
  import opened Bags
  import opened Values

  datatype Producer = Running | Holding(row: Row) | Done(failed: bool) | Stopped

  datatype Consumer = Reading | Ended(failed: bool)

  /** A row in the channel, and the cursor it came from. */
  datatype Item = Item(row: Row, from: nat)

  /** The channel's capacity, the bytes that make a batch full, and the bytes of a row. */
  datatype Conf = Conf(cap: nat, size: int, len: Row -> nat)

  datatype State = State(
    left: seq<seq<Row>>,
    producers: seq<Producer>,
    finished: nat,
    chan: seq<Item>,
    closings: nat,
    sentOnClosed: bool,
    consumer: Consumer,
    stop: bool,
    buffer: seq<Row>,
    bytes: nat,
    batches: seq<seq<Row>>,
    count: nat,
    received: seq<Item>)

  /** A step: a producer goes to its cursor's next row, fails to read it, finds its cursor at the end, is told
      so because the cursor's connection broke before the end, sends its row or sees that the consumer has
      stopped; the consumer takes a row or finds the channel closed. `ok` is what the callback returns where it
      is called. */
  datatype Action = Next(i: nat) | Fail(i: nat) | End(i: nat) | Cut(i: nat) | Send(i: nat) | Quit(i: nat) | Take(ok: bool) | Close(ok: bool)

  function Start(cursors: seq<seq<Row>>): (s: State) {
    State(cursors, seq(|cursors|, _ => Running), 0, [], 0, false, Reading, false, [], 0, [], 0, [])
  }

  predicate Enabled(conf: Conf, s: State, a: Action) {
    match a
    case Next(i) => i < |s.producers| == |s.left| && s.producers[i].Running? && s.left[i] != []
    case Fail(i) => i < |s.producers| == |s.left| && s.producers[i].Running? && s.left[i] != []
    case End(i) => i < |s.producers| == |s.left| && s.producers[i].Running? && s.left[i] == []
    case Cut(i) => i < |s.producers| == |s.left| && s.producers[i].Running? && s.left[i] != []
    case Send(i) => i < |s.producers| && s.producers[i].Holding? && |s.chan| < conf.cap
    case Quit(i) => i < |s.producers| && s.producers[i].Holding? && s.stop
    case Take(_) => s.consumer.Reading? && s.chan != []
    case Close(_) => s.consumer.Reading? && s.chan == [] && s.closings > 0
  }

  /** A producer that is through: the last one closes the channel. */
  function Through(s: State, i: nat, failed: bool): (s': State)
    requires i < |s.producers|
  {
    s.(producers := s.producers[i := Done(failed)], finished := s.finished + 1,
       closings := if s.finished + 1 == |s.producers| then s.closings + 1 else s.closings)
  }

  /** The consumer takes a row; a full buffer goes to the callback. */
  function Taken(conf: Conf, s: State, ok: bool): (s': State)
    requires s.chan != []
  {
    var item := s.chan[0];
    var buffer, bytes := s.buffer + [item.row], s.bytes + conf.len(item.row);
    var t := s.(chan := s.chan[1..], received := s.received + [item], count := s.count + 1);
    if bytes < conf.size then t.(buffer := buffer, bytes := bytes)
    else if !ok then t.(buffer := buffer, bytes := bytes, consumer := Ended(true), stop := true)
    else t.(buffer := [], bytes := 0, batches := s.batches + [buffer])
  }

  function Closed(s: State, ok: bool): (s': State) {
    if s.buffer == [] then s.(consumer := Ended(false), stop := true)
    else if !ok then s.(consumer := Ended(true), stop := true)
    else s.(buffer := [], batches := s.batches + [s.buffer], consumer := Ended(false), stop := true)
  }

  function Step(conf: Conf, s: State, a: Action): (s': State)
    requires Enabled(conf, s, a)
  {
    match a
    case Next(i) => s.(producers := s.producers[i := Holding(s.left[i][0])], left := s.left[i := s.left[i][1..]])
    case Fail(i) => Through(s.(left := s.left[i := s.left[i][1..]]), i, true)
    case End(i) => Through(s, i, false)
    case Cut(i) => Through(s, i, false)
    case Send(i) =>
      s.(producers := s.producers[i := Running], chan := s.chan + [Item(s.producers[i].row, i)],
         sentOnClosed := s.sentOnClosed || s.closings > 0)
    case Quit(i) => s.(producers := s.producers[i := Stopped])
    case Take(ok) => Taken(conf, s, ok)
    case Close(ok) => Closed(s, ok)
  }

  predicate IsRun(conf: Conf, s: State, run: seq<Action>)
    decreases |run|
  {
    run == [] || (Enabled(conf, s, run[0]) && IsRun(conf, Step(conf, s, run[0]), run[1..]))
  }

  function After(conf: Conf, s: State, run: seq<Action>): (s': State)
    requires IsRun(conf, s, run)
    decreases |run|
  {
    if run == [] then s else After(conf, Step(conf, s, run[0]), run[1..])
  }

  // ---------------------------------------------------------------- what every step keeps

  /** The rows of one cursor among some items, in order. */
  function Of(items: seq<Item>, i: nat): (rows: seq<Row>) {
    if items == [] then []
    else Of(items[..|items| - 1], i) + if items[|items| - 1].from == i then [items[|items| - 1].row] else []
  }

  function Plain(items: seq<Item>): (rows: seq<Row>)
    ensures |rows| == |items|
  {
    seq(|items|, k requires 0 <= k < |items| => items[k].row)
  }

  function DoneCount(ps: seq<Producer>): (n: nat) {
    if ps == [] then 0 else DoneCount(ps[..|ps| - 1]) + if ps[|ps| - 1].Done? then 1 else 0
  }

  function Held(p: Producer): (rows: seq<Row>) {
    if p.Holding? then [p.row] else []
  }

  /** The channel is closed by the last producer, once, and never sent on afterwards. */
  predicate ChannelOk(s: State) {
    && s.finished == DoneCount(s.producers)
    && s.closings == (if s.finished == |s.producers| && s.finished > 0 then 1 else 0)
    && !s.sentOnClosed
  }

  /** Producers only stop after the consumer, which ends when it says stop. */
  predicate StopOk(s: State) {
    (s.stop <==> s.consumer.Ended?) && forall i | 0 <= i < |s.producers| && s.producers[i].Stopped? :: s.stop
  }

  /** Each row of a cursor is received, in the channel, held or still to come, in this order. Nothing says that
      a producer which is through without an error has none to come. */
  predicate CursorOk(cursors: seq<seq<Row>>, s: State, i: nat)
    requires i < |cursors| == |s.producers| == |s.left|
  {
    match s.producers[i]
    case Done(true) => true
    case Stopped => true
    case _ => Of(s.received + s.chan, i) + Held(s.producers[i]) + s.left[i] == cursors[i]
  }

  /** What was taken from the channel went to the callback in order, or is in the buffer. */
  predicate ConsumerOk(s: State) {
    s.count == |s.received| && (!s.consumer.Ended? || !s.consumer.failed ==> Plain(s.received) == Concat(s.batches) + s.buffer)
  }

  predicate Inv(cursors: seq<seq<Row>>, s: State) {
    && |cursors| == |s.producers| == |s.left|
    && ChannelOk(s) && StopOk(s) && ConsumerOk(s)
    && (forall i: nat | i < |cursors| :: CursorOk(cursors, s, i))
    && (forall k | 0 <= k < |s.received + s.chan| :: (s.received + s.chan)[k].from < |cursors|)
    && (s.consumer == Ended(false) ==> s.chan == [] && s.closings > 0 && s.buffer == [])
  }

  lemma {:induction false} DoneUpdate(ps: seq<Producer>, i: nat, p: Producer)
    requires i < |ps|
    ensures DoneCount(ps[i := p]) == DoneCount(ps) - (if ps[i].Done? then 1 else 0) + (if p.Done? then 1 else 0)
    decreases |ps|
  {
    var n := |ps| - 1;
    if i < n {
      DoneUpdate(ps[..n], i, p);
      assert ps[i := p][..n] == ps[..n][i := p];
    } else {
      assert ps[i := p][..n] == ps[..n];
    }
  }

  lemma {:induction false} DoneBound(ps: seq<Producer>)
    ensures DoneCount(ps) <= |ps|
    ensures DoneCount(ps) == |ps| <==> forall i | 0 <= i < |ps| :: ps[i].Done?
    decreases |ps|
  {
    if ps != [] {
      DoneBound(ps[..|ps| - 1]);
      assert ps == ps[..|ps| - 1] + [ps[|ps| - 1]];
    }
  }

  lemma OfAppend(items: seq<Item>, x: Item, i: nat)
    ensures Of(items + [x], i) == Of(items, i) + if x.from == i then [x.row] else []
  {
    assert (items + [x])[..|items|] == items;
  }

  lemma StartInv(cursors: seq<seq<Row>>)
    ensures Inv(cursors, Start(cursors))
  {
    var s := Start(cursors);
    StartCount(|cursors|);
    assert s.producers == seq(|cursors|, _ => Running);
    forall i: nat | i < |cursors| ensures CursorOk(cursors, s, i) {
      assert Of([], i) == [] && s.received + s.chan == [];
    }
  }

  lemma {:induction false} StartCount(n: nat)
    ensures DoneCount(seq(n, _ => Running)) == 0
  {
    if n > 0 {
      StartCount(n - 1);
      assert seq(n, _ => Running)[..n - 1] == seq(n - 1, _ => Running);
    }
  }

  /** A producer that is not done: the channel is open. */
  lemma StillOpen(s: State, i: nat)
    requires ChannelOk(s) && i < |s.producers| && !s.producers[i].Done?
    ensures s.finished < |s.producers| && s.closings == 0
  {
    DoneBound(s.producers);
  }

  lemma NextKeeps(conf: Conf, cursors: seq<seq<Row>>, s: State, i: nat)
    requires Inv(cursors, s) && Enabled(conf, s, Next(i))
    ensures Inv(cursors, Step(conf, s, Next(i)))
  {
    var s' := Step(conf, s, Next(i));
    DoneUpdate(s.producers, i, Holding(s.left[i][0]));
    assert s.left[i] == [s.left[i][0]] + s.left[i][1..];
    forall k: nat | k < |cursors| ensures CursorOk(cursors, s', k) {
      assert CursorOk(cursors, s, k);
    }
  }

  lemma ThroughKeeps(cursors: seq<seq<Row>>, s: State, i: nat, failed: bool)
    requires |cursors| == |s.producers| == |s.left| && i < |cursors| && s.producers[i].Running?
    requires ChannelOk(s) && StopOk(s) && ConsumerOk(s)
    requires forall k: nat | k < |cursors| && (k != i || !failed) :: CursorOk(cursors, s, k)
    requires forall k | 0 <= k < |s.received + s.chan| :: (s.received + s.chan)[k].from < |cursors|
    requires s.consumer == Ended(false) ==> s.chan == [] && s.closings > 0 && s.buffer == []
    ensures Inv(cursors, Through(s, i, failed))
  {
    var s' := Through(s, i, failed);
    StillOpen(s, i);
    DoneUpdate(s.producers, i, Done(failed));
    DoneBound(s'.producers);
    forall k: nat | k < |cursors| ensures CursorOk(cursors, s', k) {
      assert k != i || !failed ==> CursorOk(cursors, s, k);
      assert Held(Running) == [];
    }
  }

  lemma FailKeeps(conf: Conf, cursors: seq<seq<Row>>, s: State, i: nat)
    requires Inv(cursors, s) && Enabled(conf, s, Fail(i))
    ensures Inv(cursors, Step(conf, s, Fail(i)))
  {
    var t := s.(left := s.left[i := s.left[i][1..]]);
    forall k: nat | k < |cursors| && k != i ensures CursorOk(cursors, t, k) {
      assert CursorOk(cursors, s, k);
    }
    ThroughKeeps(cursors, t, i, true);
  }

  lemma SendKeeps(conf: Conf, cursors: seq<seq<Row>>, s: State, i: nat)
    requires Inv(cursors, s) && Enabled(conf, s, Send(i))
    ensures Inv(cursors, Step(conf, s, Send(i)))
  {
    var s' := Step(conf, s, Send(i));
    var item := Item(s.producers[i].row, i);
    StillOpen(s, i);
    DoneUpdate(s.producers, i, Running);
    assert s'.received + s'.chan == (s.received + s.chan) + [item];
    forall k: nat | k < |cursors| ensures CursorOk(cursors, s', k) {
      assert CursorOk(cursors, s, k);
      OfAppend(s.received + s.chan, item, k);
    }
  }

  lemma QuitKeeps(conf: Conf, cursors: seq<seq<Row>>, s: State, i: nat)
    requires Inv(cursors, s) && Enabled(conf, s, Quit(i))
    ensures Inv(cursors, Step(conf, s, Quit(i)))
  {
    var s' := Step(conf, s, Quit(i));
    DoneUpdate(s.producers, i, Stopped);
    forall k: nat | k < |cursors| ensures CursorOk(cursors, s', k) {
      assert CursorOk(cursors, s, k);
    }
  }

  lemma ConcatAppend(batches: seq<seq<Row>>, b: seq<Row>)
    ensures Concat(batches + [b]) == Concat(batches) + b
  {
    assert (batches + [b])[..|batches|] == batches;
  }

  lemma TakenConsumer(conf: Conf, s: State, ok: bool)
    requires s.chan != [] && s.consumer.Reading? && ConsumerOk(s)
    ensures ConsumerOk(Taken(conf, s, ok))
  {
    var row := s.chan[0].row;
    PlainAppend(s.received, s.chan[0]);
    Regroup(Concat(s.batches), s.buffer, row);
    ConcatAppend(s.batches, s.buffer + [row]);
  }

  lemma PlainAppend(items: seq<Item>, x: Item)
    ensures Plain(items + [x]) == Plain(items) + [x.row]
  {
  }

  lemma Regroup(a: seq<Row>, b: seq<Row>, row: Row)
    ensures a + b + [row] == a + (b + [row]) && a + (b + [row]) + [] == a + (b + [row])
  {
  }

  lemma TakeKeeps(conf: Conf, cursors: seq<seq<Row>>, s: State, ok: bool)
    requires Inv(cursors, s) && Enabled(conf, s, Take(ok))
    ensures Inv(cursors, Step(conf, s, Take(ok)))
  {
    var s' := Step(conf, s, Take(ok));
    TakenConsumer(conf, s, ok);
    HeadMoves(s.received, s.chan);
    forall k: nat | k < |cursors| ensures CursorOk(cursors, s', k) {
      assert CursorOk(cursors, s, k);
    }
  }

  lemma CloseKeeps(conf: Conf, cursors: seq<seq<Row>>, s: State, ok: bool)
    requires Inv(cursors, s) && Enabled(conf, s, Close(ok))
    ensures Inv(cursors, Step(conf, s, Close(ok)))
  {
    var s' := Step(conf, s, Close(ok));
    ConcatAppend(s.batches, s.buffer);
    forall k: nat | k < |cursors| ensures CursorOk(cursors, s', k) {
      assert CursorOk(cursors, s, k);
    }
  }

  lemma StepKeeps(conf: Conf, cursors: seq<seq<Row>>, s: State, a: Action)
    requires Inv(cursors, s) && Enabled(conf, s, a)
    ensures Inv(cursors, Step(conf, s, a))
  {
    match a
    case Next(i) => NextKeeps(conf, cursors, s, i);
    case Fail(i) => FailKeeps(conf, cursors, s, i);
    case End(i) => ThroughKeeps(cursors, s, i, false);
    case Cut(i) => ThroughKeeps(cursors, s, i, false);
    case Send(i) => SendKeeps(conf, cursors, s, i);
    case Quit(i) => QuitKeeps(conf, cursors, s, i);
    case Take(ok) => TakeKeeps(conf, cursors, s, ok);
    case Close(ok) => CloseKeeps(conf, cursors, s, ok);
  }

  lemma {:induction false} RunKeeps(conf: Conf, cursors: seq<seq<Row>>, s: State, run: seq<Action>)
    requires Inv(cursors, s) && IsRun(conf, s, run)
    ensures Inv(cursors, After(conf, s, run))
    decreases |run|
  {
    if run != [] {
      StepKeeps(conf, cursors, s, run[0]);
      RunKeeps(conf, cursors, Step(conf, s, run[0]), run[1..]);
    }
  }

  // ---------------------------------------------------------------- whole runs

  /** In every run, at every moment: the row channel has been closed at most once, and nothing was sent on it
      after it was closed. */
  lemma ClosedOnceNeverSentOn(conf: Conf, cursors: seq<seq<Row>>, run: seq<Action>)
    requires IsRun(conf, Start(cursors), run)
    ensures After(conf, Start(cursors), run).closings <= 1 && !After(conf, Start(cursors), run).sentOnClosed
  {
    StartInv(cursors);
    RunKeeps(conf, cursors, Start(cursors), run);
  }

  /** The select ended without an error. */
  predicate Succeeded(s: State) {
    s.consumer == Ended(false) && forall i | 0 <= i < |s.producers| :: s.producers[i] == Done(false)
  }

  function TotalRows(cursors: seq<seq<Row>>): (n: nat) {
    if cursors == [] then 0 else TotalRows(cursors[..|cursors| - 1]) + |cursors[|cursors| - 1]|
  }

  /** The producer is through without an error, and its cursor has rows left. */
  predicate CutOff(s: State, i: nat) {
    i < |s.producers| == |s.left| && s.producers[i] == Done(false) && s.left[i] != []
  }

  lemma CutStep(conf: Conf, s: State, a: Action, i: nat)
    requires Enabled(conf, s, a)
    ensures CutOff(Step(conf, s, a), i) <==> CutOff(s, i) || a == Cut(i)
  {
  }

  /** A cursor is cut off by a cut and by nothing else. */
  lemma {:induction false} CutRun(conf: Conf, s: State, run: seq<Action>, i: nat)
    requires IsRun(conf, s, run)
    ensures CutOff(After(conf, s, run), i) <==> CutOff(s, i) || Cut(i) in run
    decreases |run|
  {
    if run != [] {
      CutStep(conf, s, run[0], i);
      CutRun(conf, Step(conf, s, run[0]), run[1..], i);
      assert run == [run[0]] + run[1..];
    }
  }

  /** The rows received of each cursor. */
  function ByCursor(items: seq<Item>, n: nat): (rows: seq<seq<Row>>)
    ensures |rows| == n
  {
    seq(n, i requires 0 <= i < n => Of(items, i))
  }

  lemma {:induction false} TotalPrefixes(a: seq<seq<Row>>, b: seq<seq<Row>>)
    requires |a| == |b| && forall i | 0 <= i < |a| :: a[i] <= b[i]
    ensures TotalRows(a) <= TotalRows(b) && (TotalRows(a) == TotalRows(b) <==> forall i | 0 <= i < |a| :: a[i] == b[i])
    decreases |a|
  {
    if a != [] {
      var n := |a| - 1;
      TotalPrefixes(a[..n], b[..n]);
      assert a[n] <= b[n] && (|a[n]| == |b[n]| <==> a[n] == b[n]);
      assert forall i | 0 <= i < n :: a[..n][i] == a[i] && b[..n][i] == b[i];
    }
  }

  lemma CursorReceived(conf: Conf, cursors: seq<seq<Row>>, run: seq<Action>, i: nat)
    requires IsRun(conf, Start(cursors), run) && Succeeded(After(conf, Start(cursors), run)) && i < |cursors|
    ensures var rows := Of(After(conf, Start(cursors), run).received, i);
      rows <= cursors[i] && (rows == cursors[i] <==> Cut(i) !in run)
  {
    StartInv(cursors);
    RunKeeps(conf, cursors, Start(cursors), run);
    CutRun(conf, Start(cursors), run, i);
    var s := After(conf, Start(cursors), run);
    assert s.received + s.chan == s.received && CursorOk(cursors, s, i);
    assert Of(s.received, i) + [] + s.left[i] == cursors[i];
  }

  /** In every run that succeeds, the batches together are the rows received, of each cursor a first part in
      order, and the count sent at the end is their number. A cursor's rows are complete if and only if it was
      not cut, and the count is that of all rows if and only if none was. */
  lemma RowsConserved(conf: Conf, cursors: seq<seq<Row>>, run: seq<Action>)
    requires IsRun(conf, Start(cursors), run) && Succeeded(After(conf, Start(cursors), run))
    ensures var s := After(conf, Start(cursors), run);
      && Concat(s.batches) == Plain(s.received)
      && (forall i: nat | i < |cursors| :: Of(s.received, i) <= cursors[i] && (Of(s.received, i) == cursors[i] <==> Cut(i) !in run))
      && (forall k | 0 <= k < |s.received| :: s.received[k].from < |cursors|)
      && s.count == TotalRows(ByCursor(s.received, |cursors|)) <= TotalRows(cursors)
      && (s.count == TotalRows(cursors) <==> forall i: nat | i < |cursors| :: Cut(i) !in run)
  {
    StartInv(cursors);
    RunKeeps(conf, cursors, Start(cursors), run);
    var s := After(conf, Start(cursors), run);
    assert s.received + s.chan == s.received;
    forall i: nat | i < |cursors| ensures Of(s.received, i) <= cursors[i] && (Of(s.received, i) == cursors[i] <==> Cut(i) !in run) {
      CursorReceived(conf, cursors, run, i);
    }
    CountedByCursor(s.received, ByCursor(s.received, |cursors|));
    TotalPrefixes(ByCursor(s.received, |cursors|), cursors);
  }

  /** A shard whose connection breaks before its rows: the select succeeds without any of them. */
  lemma RowsLost(conf: Conf, rows: seq<Row>)
    requires rows != []
    ensures var run := [Cut(0), Close(true)];
      && IsRun(conf, Start([rows]), run) && Succeeded(After(conf, Start([rows]), run))
      && After(conf, Start([rows]), run).count == 0 < TotalRows([rows])
  {
    var s := Start([rows]);
    var run := [Cut(0), Close(true)];
    var t := Step(conf, s, Cut(0));
    assert run[1..] == [Close(true)] && run[1..][1..] == [];
    assert t.producers == [Done(false)] && t.closings == 1;
    var u := Step(conf, t, Close(true));
    assert IsRun(conf, u, []) && After(conf, u, []) == u;
    assert IsRun(conf, t, run[1..]) && After(conf, t, run[1..]) == After(conf, u, run[1..][1..]);
    assert [rows][..0] == [] && TotalRows([rows]) == TotalRows([rows][..0]) + |rows|;
  }

  /** Counting the items is counting them cursor by cursor. */
  lemma {:induction false} CountedByCursor(items: seq<Item>, cursors: seq<seq<Row>>)
    requires forall k | 0 <= k < |items| :: items[k].from < |cursors|
    requires forall i: nat | i < |cursors| :: Of(items, i) == cursors[i]
    ensures |items| == TotalRows(cursors)
    decreases |items|
  {
    if items == [] {
      NoRows(cursors);
    } else {
      var n := |items| - 1;
      var i := items[n].from;
      var before := cursors[i := Of(items[..n], i)];
      forall k: nat | k < |cursors| ensures Of(items[..n], k) == before[k] {
        OfAppend(items[..n], items[n], k);
        assert items == items[..n] + [items[n]];
      }
      CountedByCursor(items[..n], before);
      OfAppend(items[..n], items[n], i);
      assert items == items[..n] + [items[n]];
      TotalUpdate(cursors, i, Of(items[..n], i));
    }
  }

  lemma {:induction false} NoRows(cursors: seq<seq<Row>>)
    requires forall i: nat | i < |cursors| :: cursors[i] == []
    ensures TotalRows(cursors) == 0
    decreases |cursors|
  {
    if cursors != [] {
      NoRows(cursors[..|cursors| - 1]);
    }
  }

  lemma {:induction false} TotalUpdate(cursors: seq<seq<Row>>, i: nat, rows: seq<Row>)
    requires i < |cursors|
    ensures TotalRows(cursors[i := rows]) == TotalRows(cursors) - |cursors[i]| + |rows|
    decreases |cursors|
  {
    var n := |cursors| - 1;
    if i < n {
      TotalUpdate(cursors[..n], i, rows);
      assert cursors[i := rows][..n] == cursors[..n][i := rows];
    } else {
      assert cursors[i := rows][..n] == cursors[..n];
    }
  }

  // ---------------------------------------------------------------- batches

  function Bytes(conf: Conf, rows: seq<Row>): (n: nat) {
    if rows == [] then 0 else Bytes(conf, rows[..|rows| - 1]) + conf.len(rows[|rows| - 1])
  }

  /** A batch that was sent because it was full: full with its last row, not before. */
  predicate JustFull(conf: Conf, b: seq<Row>) {
    b != [] && Bytes(conf, b) >= conf.size && (Bytes(conf, b[..|b| - 1]) < conf.size || |b| == 1)
  }

  /** All batches but the one sent at the end were just full, and the buffer is not. */
  predicate BatchesOk(conf: Conf, s: State) {
    && (s.consumer.Reading? ==> s.bytes == Bytes(conf, s.buffer))
    && (s.consumer.Reading? ==> s.buffer == [] || s.bytes < conf.size)
    && (forall j | 0 <= j < |s.batches| && (s.consumer.Reading? || j < |s.batches| - 1) :: JustFull(conf, s.batches[j]))
  }

  lemma BytesAppend(conf: Conf, rows: seq<Row>, row: Row)
    ensures Bytes(conf, rows + [row]) == Bytes(conf, rows) + conf.len(row)
  {
    assert (rows + [row])[..|rows|] == rows;
  }

  lemma BatchStep(conf: Conf, s: State, a: Action)
    requires BatchesOk(conf, s) && Enabled(conf, s, a)
    ensures BatchesOk(conf, Step(conf, s, a))
  {
    if a.Take? {
      BytesAppend(conf, s.buffer, s.chan[0].row);
      assert (s.buffer + [s.chan[0].row])[..|s.buffer|] == s.buffer;
    }
  }

  lemma {:induction false} BatchRun(conf: Conf, s: State, run: seq<Action>)
    requires BatchesOk(conf, s) && IsRun(conf, s, run)
    ensures BatchesOk(conf, After(conf, s, run))
    decreases |run|
  {
    if run != [] {
      BatchStep(conf, s, run[0]);
      BatchRun(conf, Step(conf, s, run[0]), run[1..]);
    }
  }

  /** In every run, a batch is sent as soon as it is full and, before the end, not sooner. */
  lemma BatchesJustFull(conf: Conf, cursors: seq<seq<Row>>, run: seq<Action>)
    requires IsRun(conf, Start(cursors), run)
    ensures var s := After(conf, Start(cursors), run);
      forall j | 0 <= j < |s.batches| - 1 :: JustFull(conf, s.batches[j])
  {
    BatchRun(conf, Start(cursors), run);
  }

  // ---------------------------------------------------------------- every run ends

  function Weight(p: Producer): (n: nat) {
    match p
    case Running => 1
    case Holding(_) => 3
    case _ => 0
  }

  function Weights(ps: seq<Producer>): (n: nat) {
    if ps == [] then 0 else Weights(ps[..|ps| - 1]) + Weight(ps[|ps| - 1])
  }

  /** How much is left to do. */
  function Measure(s: State): (n: nat) {
    3 * TotalRows(s.left) + Weights(s.producers) + |s.chan| + if s.consumer.Reading? then 1 else 0
  }

  lemma {:induction false} WeightsUpdate(ps: seq<Producer>, i: nat, p: Producer)
    requires i < |ps|
    ensures Weights(ps[i := p]) == Weights(ps) - Weight(ps[i]) + Weight(p)
    decreases |ps|
  {
    var n := |ps| - 1;
    if i < n {
      WeightsUpdate(ps[..n], i, p);
      assert ps[i := p][..n] == ps[..n][i := p];
    } else {
      assert ps[i := p][..n] == ps[..n];
    }
  }

  lemma StepProgresses(conf: Conf, s: State, a: Action)
    requires Enabled(conf, s, a)
    ensures Measure(Step(conf, s, a)) < Measure(s)
  {
    match a
    case Next(i) =>
      WeightsUpdate(s.producers, i, Holding(s.left[i][0]));
      TotalUpdate(s.left, i, s.left[i][1..]);
    case Fail(i) =>
      WeightsUpdate(s.producers, i, Done(true));
      TotalUpdate(s.left, i, s.left[i][1..]);
    case End(i) => WeightsUpdate(s.producers, i, Done(false));
    case Cut(i) => WeightsUpdate(s.producers, i, Done(false));
    case Send(i) => WeightsUpdate(s.producers, i, Running);
    case Quit(i) => WeightsUpdate(s.producers, i, Stopped);
    case Take(_) =>
    case Close(_) =>
  }

  /** No run is longer than what there is to do. */
  lemma {:induction false} RunsEnd(conf: Conf, s: State, run: seq<Action>)
    requires IsRun(conf, s, run)
    ensures |run| <= Measure(s)
    decreases |run|
  {
    if run != [] {
      StepProgresses(conf, s, run[0]);
      RunsEnd(conf, Step(conf, s, run[0]), run[1..]);
    }
  }

  /** All goroutines have returned. */
  predicate AllEnded(s: State) {
    s.consumer.Ended? && forall i | 0 <= i < |s.producers| :: s.producers[i].Done? || s.producers[i].Stopped?
  }

  ghost predicate Stuck(conf: Conf, s: State) {
    forall a :: !Enabled(conf, s, a)
  }

  lemma NotStuckProducer(conf: Conf, cursors: seq<seq<Row>>, s: State, i: nat)
    requires Inv(cursors, s) && i < |s.producers| && !s.producers[i].Done? && !s.producers[i].Stopped?
    requires s.stop || |s.chan| < conf.cap
    ensures !Stuck(conf, s)
  {
    if s.producers[i].Running? {
      assert Enabled(conf, s, if s.left[i] != [] then Next(i) else End(i));
    } else {
      assert Enabled(conf, s, if s.stop then Quit(i) else Send(i));
    }
  }

  /** Nobody waits for ever: wherever a run cannot go on, all goroutines have returned. This holds after an
      error of the callback too. */
  lemma NoDeadlock(conf: Conf, cursors: seq<seq<Row>>, run: seq<Action>)
    requires conf.cap > 0 && cursors != [] && IsRun(conf, Start(cursors), run)
    ensures Stuck(conf, After(conf, Start(cursors), run)) <==> AllEnded(After(conf, Start(cursors), run))
  {
    StartInv(cursors);
    RunKeeps(conf, cursors, Start(cursors), run);
    var s := After(conf, Start(cursors), run);
    if AllEnded(s) {
      EndedStuck(conf, s);
    } else {
      GoesOn(conf, cursors, s);
    }
  }

  lemma EndedStuck(conf: Conf, s: State)
    requires AllEnded(s)
    ensures Stuck(conf, s)
  {
    forall a ensures !Enabled(conf, s, a) {
    }
  }

  lemma GoesOn(conf: Conf, cursors: seq<seq<Row>>, s: State)
    requires Inv(cursors, s) && conf.cap > 0 && cursors != [] && !AllEnded(s)
    ensures !Stuck(conf, s)
  {
    if s.consumer.Reading? {
      ReaderGoesOn(conf, cursors, s);
    } else {
      var i: nat :| i < |s.producers| && !s.producers[i].Done? && !s.producers[i].Stopped?;
      NotStuckProducer(conf, cursors, s, i);
    }
  }

  lemma ReaderGoesOn(conf: Conf, cursors: seq<seq<Row>>, s: State)
    requires Inv(cursors, s) && s.consumer.Reading? && conf.cap > 0 && cursors != []
    ensures !Stuck(conf, s)
  {
    if s.chan != [] {
      assert Enabled(conf, s, Take(true));
    } else if s.closings > 0 {
      assert Enabled(conf, s, Close(true));
    } else {
      DoneBound(s.producers);
      var i: nat :| i < |s.producers| && !s.producers[i].Done?;
      NotStuckProducer(conf, cursors, s, i);
    }
  }
}
