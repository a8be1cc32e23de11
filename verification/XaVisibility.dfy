/** What reads see of transactions that commit on several backends. */
module XaVisibility {
  import opened Text
  import opened XaModel
  import opened XaAtomicity

  /** The commit phase of the transaction ended with an error: some branch may be committed while
      others are left to the retry log. */
  ghost predicate Torn(t: Txn) {
    t.submitted == Some(Commit) || (t.phase == Crashed && t.decided == Some(Commit))
  }

  ghost predicate Holds(t: Txn) {
    t.phase.Running? && t.decided.Some?
  }

  /** The commit lock: held by the transaction whose COMMIT or ROLLBACK is under way, never
      together with a read. */
  ghost predicate LockOk(s: State) {
    && (forall x | x in s.txns :: Holds(s.txns[x]) <==> s.writer == Some(x))
    && (s.writer.Some? ==> s.writer.value in s.txns && forall r | r in s.readers :: !s.readers[r].active)
  }

  ghost predicate CommittedBranch(t: Txn, b: Backend) {
    b in t.branch && t.branch[b] == Committed
  }

  /** The read sees the transaction on all of the shards it has in common with it, or on none. */
  ghost predicate SeesWhole(t: Txn, q: Reader, x: Xid) {
    forall b, d | b in q.seen && d in q.seen && b in t.parts && d in t.parts :: x in q.seen[b] <==> x in q.seen[d]
  }

  /** A read under way has seen of the transaction exactly what is committed of it now; one that is done did
      not see it in part. */
  ghost predicate ReaderOk(t: Txn, q: Reader, x: Xid) {
    SeesWhole(t, q, x) && (q.active ==> forall b | b in q.seen :: x in q.seen[b] <==> CommittedBranch(t, b))
  }

  ghost predicate Unseen(q: Reader, x: Xid) {
    forall b | b in q.seen :: x !in q.seen[b]
  }

  /** What reads have seen of one transaction, as long as its commit phase has not ended with an error. */
  ghost predicate ReadersOk(s: State, x: Xid) {
    if x in s.txns then !Torn(s.txns[x]) ==> forall r | r in s.readers :: ReaderOk(s.txns[x], s.readers[r], x)
    else forall r | r in s.readers :: Unseen(s.readers[r], x)
  }

  ghost predicate VisibilityOk(s: State, x: Xid) {
    Ok(s) && LockOk(s) && ReadersOk(s, x)
  }

  /** While it does not hold the lock, a transaction is committed everywhere or nowhere. */
  lemma AllOrNone(s: State, x: Xid)
    requires Ok(s) && LockOk(s) && s.writer != Some(x) && x in s.txns && !Torn(s.txns[x])
    ensures (forall b | b in s.txns[x].parts :: s.txns[x].branch[b] == Committed)
         || (forall b | b in s.txns[x].parts :: s.txns[x].branch[b] != Committed)
  {
    var t := s.txns[x];
    if t.decided != Some(Commit) {
      forall b | b in t.parts ensures t.branch[b] != Committed {
        assert (Commit, b) in t.handled ==> (Commit, b) in t.sent;
      }
    } else {
      assert t.phase == Over && Decided(t);
    }
  }

  /** While it does not hold the lock, a COMMIT that was sent for it has been carried out. */
  lemma SentIsDone(s: State, x: Xid, b: Backend)
    requires Ok(s) && LockOk(s) && s.writer != Some(x) && x in s.txns && !Torn(s.txns[x])
    requires (Commit, b) in s.txns[x].sent && b in s.txns[x].branch
    ensures s.txns[x].branch[b] == Committed
  {
    var t := s.txns[x];
    assert t.decided == Some(Commit) && t.phase == Over && Decided(t);
  }

  lemma TxnStep(s: State, a: Action)
    requires Enabled(s, a) && AboutTxn(a).Some?
    ensures Apply(s, a) == State(s.txns[a.x := StepTxn(s.txns[a.x], a)], NextWriter(s, a), s.readers)
  {
  }

  lemma OnlyCommitCommits(s: State, a: Action, b: Backend)
    requires Enabled(s, a) && AboutTxn(a).Some? && !(a.Handle? && a.c == Commit)
    ensures CommittedBranch(StepTxn(s.txns[a.x], a), b) <==> CommittedBranch(s.txns[a.x], b)
  {
  }

  /** No step commits a branch of a transaction that does not hold the lock. */
  lemma NothingCommits(s: State, a: Action, x: Xid, b: Backend)
    requires Ok(s) && LockOk(s) && s.writer != Some(x) && x in s.txns && !Torn(s.txns[x]) && Enabled(s, a)
    ensures x in Apply(s, a).txns && (CommittedBranch(Apply(s, a).txns[x], b) <==> CommittedBranch(s.txns[x], b))
  {
    if AboutTxn(a) == Some(x) {
      if a.Handle? && a.c == Commit {
        SentIsDone(s, x, a.b);
      }
      OnlyCommitCommits(s, a, b);
      TxnStep(s, a);
    }
  }

  /** The lock is taken by TakeLock and given back at the end of the command. */
  lemma HoldsStep(s: State, a: Action)
    requires Enabled(s, a) && AboutTxn(a).Some? && TxnOk(s.txns[a.x])
    ensures Holds(StepTxn(s.txns[a.x], a)) <==> a.TakeLock? || (Holds(s.txns[a.x]) && !a.EndPhase?)
  {
  }

  lemma LockMoves(s: State, x: Xid, t: Txn, take: bool, end: bool)
    requires LockOk(s) && x in s.txns && (take ==> LockFree(s)) && !(take && end)
    requires Holds(t) <==> take || (Holds(s.txns[x]) && !end)
    ensures LockOk(State(s.txns[x := t], if take then Some(x) else if end && s.writer == Some(x) then None else s.writer, s.readers))
  {
  }

  lemma LockKept(s: State, a: Action)
    requires Ok(s) && LockOk(s) && Enabled(s, a)
    ensures LockOk(Apply(s, a))
  {
    if AboutTxn(a).Some? {
      TxnLockKept(s, a);
    }
  }

  lemma TxnLockKept(s: State, a: Action)
    requires Enabled(s, a) && AboutTxn(a).Some? && LockOk(s) && TxnOk(s.txns[a.x])
    ensures LockOk(Apply(s, a))
  {
    TxnStep(s, a);
    HoldsStep(s, a);
    LockMoves(s, a.x, StepTxn(s.txns[a.x], a), a.TakeLock?, a.EndPhase?);
  }

  /** Once torn, a transaction stays so. */
  lemma TornStep(s: State, a: Action)
    requires Enabled(s, a) && AboutTxn(a).Some? && TxnOk(s.txns[a.x]) && Torn(s.txns[a.x])
    ensures Torn(StepTxn(s.txns[a.x], a))
  {
  }

  lemma NotTornBefore(s: State, a: Action, x: Xid)
    requires Ok(s) && Enabled(s, a) && x in s.txns && x in Apply(s, a).txns && !Torn(Apply(s, a).txns[x])
    ensures !Torn(s.txns[x])
  {
    if Torn(s.txns[x]) && AboutTxn(a) == Some(x) {
      TornStep(s, a);
      TxnStep(s, a);
    }
  }

  lemma PartsKept(s: State, a: Action, x: Xid)
    requires Enabled(s, a) && x in s.txns
    ensures x in Apply(s, a).txns && Apply(s, a).txns[x].parts == s.txns[x].parts
  {
  }

  /** A step taken while a read is under way shows it nothing new. */
  lemma ReaderKept(s: State, a: Action, x: Xid, q: Reader, q': Reader)
    requires Ok(s) && LockOk(s) && x in s.txns && !Torn(s.txns[x]) && Enabled(s, a) && ReaderOk(s.txns[x], q, x)
    requires q'.seen == q.seen && (q'.active ==> q.active && s.writer.None?)
    ensures x in Apply(s, a).txns && ReaderOk(Apply(s, a).txns[x], q', x)
  {
    PartsKept(s, a, x);
    if q'.active {
      forall b | b in q'.seen ensures x in q'.seen[b] <==> CommittedBranch(Apply(s, a).txns[x], b) {
        NothingCommits(s, a, x, b);
      }
    }
  }

  /** Readers other than the one that reads keep what they have seen. */
  lemma ReadersStand(s: State, a: Action, r: ReaderId)
    requires Enabled(s, a) && r in Apply(s, a).readers && !(a.Read? && a.r == r)
    ensures r in s.readers ==> Apply(s, a).readers[r].seen == s.readers[r].seen
    ensures r in s.readers && Apply(s, a).readers[r].active ==> s.readers[r].active
    ensures r !in s.readers ==> Apply(s, a).readers[r] == Reader(true, map[])
  {
  }

  /** Reading one more shard with the lock held by reads: the transaction is still seen whole. */
  lemma ReadKept(s: State, r: ReaderId, b: Backend, x: Xid)
    requires Ok(s) && LockOk(s) && x in s.txns && !Torn(s.txns[x]) && Enabled(s, Read(r, b)) && ReaderOk(s.txns[x], s.readers[r], x)
    ensures ReaderOk(s.txns[x], Apply(s, Read(r, b)).readers[r], x)
  {
    var q := Apply(s, Read(r, b)).readers[r];
    assert forall d | d in q.seen :: x in q.seen[d] <==> CommittedBranch(s.txns[x], d);
    AllOrNone(s, x);
  }

  lemma StepKeepsReader(s: State, a: Action, x: Xid, r: ReaderId)
    requires VisibilityOk(s, x) && Enabled(s, a) && x in s.txns && !Torn(s.txns[x]) && r in Apply(s, a).readers
    ensures x in Apply(s, a).txns && ReaderOk(Apply(s, a).txns[x], Apply(s, a).readers[r], x)
  {
    if a.Read? && a.r == r {
      ReadKept(s, r, a.b, x);
    } else {
      ReadersStand(s, a, r);
      PartsKept(s, a, x);
      if r in s.readers {
        ReaderKept(s, a, x, s.readers[r], Apply(s, a).readers[r]);
      }
    }
  }

  /** A transaction that has not begun is seen by nobody. */
  lemma StillUnseen(s: State, a: Action, x: Xid, r: ReaderId)
    requires ReadersOk(s, x) && x !in s.txns && Enabled(s, a) && r in Apply(s, a).readers
    ensures Unseen(Apply(s, a).readers[r], x)
  {
    if !(a.Read? && a.r == r) {
      ReadersStand(s, a, r);
    }
  }

  lemma BegunUnseen(s: State, a: Action, x: Xid)
    requires Enabled(s, a) && x !in s.txns && x in Apply(s, a).txns
    ensures forall b :: !CommittedBranch(Apply(s, a).txns[x], b)
  {
  }

  lemma StepKeepsReaders(s: State, a: Action, x: Xid)
    requires VisibilityOk(s, x) && Enabled(s, a)
    ensures ReadersOk(Apply(s, a), x)
  {
    var s' := Apply(s, a);
    if x in s.txns {
      PartsKept(s, a, x);
      if !Torn(s'.txns[x]) {
        NotTornBefore(s, a, x);
        forall r | r in s'.readers ensures ReaderOk(s'.txns[x], s'.readers[r], x) {
          StepKeepsReader(s, a, x, r);
        }
      }
    } else {
      forall r | r in s'.readers ensures Unseen(s'.readers[r], x) {
        StillUnseen(s, a, x, r);
      }
      if x in s'.txns {
        BegunUnseen(s, a, x);
      }
    }
  }

  lemma {:induction false} RunVisibilityOk(run: seq<Action>, x: Xid)
    requires IsRun(run)
    ensures VisibilityOk(After(run), x)
    decreases |run|
  {
    if run != [] {
      var s, a := After(run[..|run| - 1]), run[|run| - 1];
      RunVisibilityOk(run[..|run| - 1], x);
      StepKeepsOk(s, a);
      LockKept(s, a);
      StepKeepsReaders(s, a, x);
    }
  }

  /** A transaction whose own commit phase has not ended with an error is seen by every read on all the shards
      they share or on none of them, whatever happened to other transactions. */
  lemma ReadsSeeWholeTransactions(run: seq<Action>, r: ReaderId, x: Xid, b: Backend, d: Backend)
    requires IsRun(run) && r in After(run).readers && x in After(run).txns && !Torn(After(run).txns[x])
    requires b in After(run).txns[x].parts && d in After(run).txns[x].parts
    requires b in After(run).readers[r].seen && d in After(run).readers[r].seen
    ensures x in After(run).readers[r].seen[b] <==> x in After(run).readers[r].seen[d]
  {
    RunVisibilityOk(run, x);
    assert ReaderOk(After(run).txns[x], After(run).readers[r], x);
  }

  // ---------------------------------------------------------------- torn reads

  lemma Extend(run: seq<Action>, a: Action)
    requires IsRun(run) && Enabled(After(run), a)
    ensures IsRun(run + [a]) && After(run + [a]) == Apply(After(run), a)
  {
    assert (run + [a])[..|run|] == run;
  }

  /** The transaction is committed on one of the shards and not on the other. */
  ghost predicate InPart(t: Txn, b: Backend, d: Backend) {
    b in t.parts && d in t.parts && CommittedBranch(t, b) && !CommittedBranch(t, d)
  }

  /** A read that begins now: two shards, one after the other. */
  function ReadBoth(r: ReaderId, b: Backend, d: Backend): (steps: seq<Action>) {
    [ReadBegin(r)] + [Read(r, b)] + [Read(r, d)]
  }

  /** Whenever a read may begin, it sees a transaction on the first shard and not on the second if and only if
      it is committed on the first and not on the second; and then its commit phase has ended with an error. */
  lemma ReadNow(run: seq<Action>, r: ReaderId, x: Xid, b: Backend, d: Backend)
    requires IsRun(run) && x in After(run).txns && b in After(run).txns[x].parts && d in After(run).txns[x].parts && b != d
    requires After(run).writer.None? && r !in After(run).readers
    ensures IsRun(run + ReadBoth(r, b, d))
    ensures var s := After(run + ReadBoth(r, b, d));
      && s.txns == After(run).txns && r in s.readers && b in s.readers[r].seen && d in s.readers[r].seen
      && (x in s.readers[r].seen[b] && x !in s.readers[r].seen[d] <==> InPart(After(run).txns[x], b, d))
    ensures InPart(After(run).txns[x], b, d) ==> Torn(After(run).txns[x])
  {
    ReadTwo(run, r, b, d);
    RunVisibilityOk(run, x);
    PartIsTorn(After(run), x, b, d);
  }

  /** The state with a reader changed. */
  function WithReader(s: State, r: ReaderId, q: Reader): (s': State) {
    State(s.txns, s.writer, s.readers[r := q])
  }

  lemma BeginsRead(run: seq<Action>, s: State, r: ReaderId)
    requires IsRun(run) && After(run) == s && s.writer.None? && r !in s.readers
    ensures IsRun(run + [ReadBegin(r)]) && After(run + [ReadBegin(r)]) == WithReader(s, r, Reader(true, map[]))
  {
    Extend(run, ReadBegin(r));
  }

  lemma ReadsOne(run: seq<Action>, s: State, r: ReaderId, seen: map<Backend, set<Xid>>, b: Backend)
    requires IsRun(run) && After(run) == WithReader(s, r, Reader(true, seen)) && b !in seen
    ensures IsRun(run + [Read(r, b)]) && After(run + [Read(r, b)]) == WithReader(s, r, Reader(true, seen[b := CommittedOn(s, b)]))
  {
    Extend(run, Read(r, b));
    assert CommittedOn(After(run), b) == CommittedOn(s, b);
  }

  /** What a read of two shards sees when nothing comes between. */
  lemma ReadTwo(run: seq<Action>, r: ReaderId, b: Backend, d: Backend)
    requires IsRun(run) && After(run).writer.None? && r !in After(run).readers && b != d
    ensures IsRun(run + ReadBoth(r, b, d))
    ensures var s := After(run);
      After(run + ReadBoth(r, b, d)) == WithReader(s, r, Reader(true, map[b := CommittedOn(s, b)][d := CommittedOn(s, d)]))
  {
    var s := After(run);
    BeginsRead(run, s, r);
    ReadsOne(run + [ReadBegin(r)], s, r, map[], b);
    ReadsOne(run + [ReadBegin(r)] + [Read(r, b)], s, r, map[][b := CommittedOn(s, b)], d);
    assert run + ReadBoth(r, b, d) == run + [ReadBegin(r)] + [Read(r, b)] + [Read(r, d)];
  }

  lemma PartIsTorn(s: State, x: Xid, b: Backend, d: Backend)
    requires Ok(s) && LockOk(s) && s.writer.None? && x in s.txns
    ensures InPart(s.txns[x], b, d) ==> Torn(s.txns[x])
  {
    if !Torn(s.txns[x]) {
      AllOrNone(s, x);
    }
  }

  /** One participant carries out the command under way and answers. */
  function AckedBy(t: Txn, b: Backend): (t': Txn)
    requires t.phase.Running?
  {
    t.(sent := t.sent + {(t.phase.cmd, b)}, handled := t.handled + {(t.phase.cmd, b)}, branch := t.branch[b := Result(t.phase.cmd)],
       acked := t.acked + {b}, prepared := if t.phase.cmd == Prepare then t.prepared + {b} else t.prepared)
  }

  function Alone(t: Txn, w: Option<Xid>): (s: State) {
    State(map[0 := t], w, map[])
  }

  lemma Answer(run: seq<Action>, t: Txn, w: Option<Xid>, b: Backend) returns (run': seq<Action>, t': Txn)
    requires IsRun(run) && After(run) == Alone(t, w) && t.phase.Running?
    requires b in t.parts && b !in t.acked && b !in t.failed && b in t.branch && Accepts(t.branch[b], t.phase.cmd)
    ensures t' == AckedBy(t, b) && IsRun(run') && After(run') == Alone(t', w)
  {
    run', t' := Goes(run, t, w, XaModel.Send(0, b));
    run', t' := Goes(run', t', w, Handle(0, b, t.phase.cmd));
    run', t' := Goes(run', t', w, Ack(0, b));
  }

  /** A step of the transaction itself. */
  lemma Goes(run: seq<Action>, t: Txn, w: Option<Xid>, a: Action) returns (run': seq<Action>, t': Txn)
    requires IsRun(run) && After(run) == Alone(t, w) && Enabled(After(run), a) && AboutTxn(a) == Some(0)
    ensures t' == StepTxn(t, a) && IsRun(run') && After(run') == Alone(t', NextWriter(Alone(t, w), a))
  {
    Extend(run, a);
    run', t' := run + [a], StepTxn(t, a);
  }

  /** One whole phase, answered by both participants. */
  lemma BothAnswer(run: seq<Action>, t: Txn, w: Option<Xid>, b: Backend, d: Backend) returns (run': seq<Action>, t': Txn)
    requires IsRun(run) && After(run) == Alone(t, w) && t.phase.Running? && t.parts == {b, d} && b != d
    requires t.acked == {} && t.failed == {} && b in t.branch && d in t.branch
    requires Accepts(t.branch[b], t.phase.cmd) && Accepts(t.branch[d], t.phase.cmd)
    ensures t' == AfterPhase(AckedBy(AckedBy(t, b), d), true) && IsRun(run')
    ensures After(run') == Alone(t', if w == Some(0) then None else w)
  {
    run', t' := Answer(run, t, w, b);
    run', t' := Answer(run', t', w, d);
    run', t' := Goes(run', t', w, EndPhase(0, true));
  }

  /** A transaction on two shards that is about to take the lock for its COMMIT. */
  lemma UpToPrepared(b: Backend, d: Backend) returns (run: seq<Action>, t: Txn)
    requires b != d
    ensures IsRun(run) && After(run) == Alone(t, None) && t.phase == AwaitLock(Commit) && t.parts == {b, d}
    ensures b in t.branch && d in t.branch && t.branch[b] == t.branch[d] == Prepared
  {
    assert IsRun([]) && After([]) == Init;
    Extend([], Begin(0, {b, d}, false));
    run, t := [] + [Begin(0, {b, d}, false)], NewTxn({b, d}, false);
    run, t := Goes(run, t, None, XaStart(0));
    run, t := BothAnswer(run, t, None, b, d);
    assert t.phase == Open;
    run, t := Goes(run, t, None, Statement(0, true));
    run, t := BothAnswer(run, t, None, b, d);
    assert t.phase == Running(Prepare, ToCommit);
    run, t := BothAnswer(run, t, None, b, d);
  }

  /** The commit phase has reached one shard and waits for the other. */
  lemma HalfCommitted(b: Backend, d: Backend) returns (run: seq<Action>, t: Txn)
    requires b != d
    ensures IsRun(run) && After(run) == Alone(t, Some(0)) && t.parts == {b, d} && t.phase == Running(Commit, ToCommit)
    ensures t.acked == {b} && t.failed == {} && InPart(t, b, d)
  {
    run, t := UpToPrepared(b, d);
    run, t := Goes(run, t, None, TakeLock(0));
    run, t := Answer(run, t, Some(0), b);
  }

  /** The commit phase reaches one shard and fails on the other. */
  lemma CommitFails(b: Backend, d: Backend) returns (run: seq<Action>, t: Txn)
    requires b != d
    ensures IsRun(run) && After(run) == Alone(t, None) && t.parts == {b, d} && InPart(t, b, d)
  {
    run, t := HalfCommitted(b, d);
    run, t := Goes(run, t, Some(0), XaModel.Fail(0, d));
    assert t.acked == {b} && t.failed == {d} && Answered(t);
    run, t := Goes(run, t, Some(0), EndPhase(0, true));
  }

  /** A read that follows sees the transaction on the one and not on the other. */
  lemma TornRead(b: Backend, d: Backend) returns (run: seq<Action>)
    requires b != d
    ensures IsRun(run) && 0 in After(run).txns && After(run).txns[0].parts == {b, d}
    ensures 0 in After(run).readers && b in After(run).readers[0].seen && d in After(run).readers[0].seen
    ensures 0 in After(run).readers[0].seen[b] && 0 !in After(run).readers[0].seen[d]
  {
    var t;
    run, t := CommitFails(b, d);
    ReadNow(run, 0, 0, b, d);
    run := run + ReadBoth(0, b, d);
  }
}
