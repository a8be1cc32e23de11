/** What every run of the XA step system keeps. */
module XaAtomicity {
  import opened Text
  import opened XaModel

  /** The branches and the answers of a transaction fit the commands that were sent. */
  ghost predicate BranchesOk(t: Txn) {
    && t.branch.Keys == t.parts
    && t.acked <= t.parts && t.failed <= t.parts && t.prepared <= t.parts
    && t.handled <= t.sent
    && (forall b | b in t.prepared :: (Prepare, b) in t.handled)
    && (t.phase.Running? ==> forall b | b in t.acked :: (t.phase.cmd, b) in t.handled)
    && (t.phase.Running? && t.phase.cmd == Prepare ==> t.acked <= t.prepared)
    && (forall b | b in t.parts && (Prepare, b) in t.handled ::
          t.branch[b] in {Prepared, Committed, RolledBack} && (t.branch[b] == RolledBack ==> (Rollback, b) in t.sent))
    && (forall b | b in t.parts :: (Commit, b) in t.handled <==> t.branch[b] == Committed)
    && (forall b | b in t.parts && (Rollback, b) in t.handled :: t.branch[b] == RolledBack)
    && (t.phase == New ==> t.sent == {})
    && (t.sent == {} ==> forall b | b in t.parts :: t.branch[b] == Absent)
  }

  /** Decisions: one at most, never COMMIT before every participant has prepared. */
  ghost predicate DecisionOk(t: Txn) {
    && (forall b :: (Commit, b) in t.sent ==> t.decided == Some(Commit))
    && (forall b :: (Rollback, b) in t.sent ==> t.decided == Some(Rollback))
    && (t.decided.Some? ==> t.decided.value in {Commit, Rollback})
    && (t.decided.Some? ==> t.phase in {Running(t.decided.value, ToCommit), Over, Crashed})
    && (t.decided == Some(Commit) ==> t.prepared == t.parts)
    && (t.phase.AwaitLock? ==> t.phase.cmd in {Commit, Rollback} && (t.phase.cmd == Commit ==> t.prepared == t.parts))
    && (t.phase.Running? ==> (t.phase.cmd in {Commit, Rollback} <==> t.decided.Some?))
    && (t.phase.Running? && t.decided.Some? ==> t.phase.cmd == t.decided.value)
    && (t.submitted.Some? ==> t.phase == Over && t.submitted == t.decided)
    && (t.log.Some? ==> t.log == t.submitted)
  }

  /** Errors and connections: nothing is recycled with a branch still open. */
  ghost predicate ConnectionsOk(t: Txn) {
    && (t.phase.Running? && t.decided.Some? ==> t.submitted.None?)
    && (t.recycled ==> t.phase == Over && t.submitted.None?)
    && (t.recycled ==> t.sent == {} || Closed(t))
    && (t.phase == Over && t.decided.Some? && t.submitted.None? ==> Decided(t))
  }

  /** Every branch is at an end. */
  ghost predicate Closed(t: Txn) {
    forall b | b in t.parts :: b in t.branch && t.branch[b] in {Committed, RolledBack}
  }

  /** Every branch is where the decision brings it. */
  ghost predicate Decided(t: Txn) {
    t.decided.Some? && forall b | b in t.parts :: b in t.branch && t.branch[b] == Result(t.decided.value)
  }

  ghost predicate TxnOk(t: Txn) {
    BranchesOk(t) && DecisionOk(t) && ConnectionsOk(t)
  }

  ghost predicate Ok(s: State) {
    forall x | x in s.txns :: TxnOk(s.txns[x])
  }

  lemma HandleBranches(t: Txn, b: Backend, c: Cmd)
    requires TxnOk(t) && (c, b) in t.sent && b in t.branch && Accepts(t.branch[b], c)
    ensures BranchesOk(StepTxn(t, Handle(0, b, c)))
  {
    var t' := StepTxn(t, Handle(0, b, c));
    assert t'.branch.Keys == t.branch.Keys + {b} == t.branch.Keys;
    forall d | d in t'.parts ensures (Commit, d) in t'.handled <==> t'.branch[d] == Committed {
      assert (Commit, d) in t.handled <==> t.branch[d] == Committed;
    }
  }

  lemma HandleKeeps(t: Txn, b: Backend, c: Cmd)
    requires TxnOk(t) && (c, b) in t.sent && b in t.branch && Accepts(t.branch[b], c)
    ensures TxnOk(StepTxn(t, Handle(0, b, c)))
  {
    HandleBranches(t, b, c);
    assert t.recycled ==> t.sent == {} || Closed(t);
    assert t.phase == Over && t.decided.Some? && t.submitted.None? ==> Decided(t);
  }

  lemma DropKeeps(t: Txn, b: Backend)
    requires TxnOk(t) && b in t.branch && t.branch[b] in {Active, Idle}
    ensures TxnOk(StepTxn(t, Drop(0, b)))
  {
    var t' := StepTxn(t, Drop(0, b));
    assert t'.branch.Keys == t.branch.Keys;
    assert (Prepare, b) !in t.handled;
    assert t.phase == Over && t.decided.Some? && t.submitted.None? ==> Decided(t);
  }

  lemma AllAnswered(t: Txn)
    requires TxnOk(t) && t.phase.Running? && Answered(t) && t.failed == {}
    ensures t.acked == t.parts
    ensures t.phase.cmd == Prepare ==> t.prepared == t.parts
    ensures t.decided.Some? ==> Decided(t) && Closed(t)
  {
    if t.decided.Some? {
      forall b | b in t.parts ensures t.branch[b] == Result(t.decided.value) {
        assert b in t.acked && (t.phase.cmd, b) in t.handled;
      }
    }
  }

  /** The end of START, END or PREPARE. */
  lemma EarlyPhaseKeeps(t: Txn, logged: bool)
    requires TxnOk(t) && t.phase.Running? && Answered(t) && t.phase.cmd in {Start, End, Prepare}
    ensures TxnOk(AfterPhase(t, logged))
  {
    if t.failed == {} {
      AllAnswered(t);
    }
    var t' := AfterPhase(t, logged);
    assert t.decided.None? && t'.decided.None?;
    assert t'.branch == t.branch && t'.handled == t.handled && t'.parts == t.parts && t'.sent == t.sent;
    assert BranchesOk(t');
    assert DecisionOk(t');
  }

  /** The end of COMMIT or ROLLBACK: every branch is at the decision, or the decision is submitted. */
  lemma LastPhaseKeeps(t: Txn, logged: bool)
    requires TxnOk(t) && t.phase.Running? && Answered(t) && t.phase.cmd in {Commit, Rollback}
    ensures TxnOk(AfterPhase(t, logged))
  {
    if t.failed == {} {
      AllAnswered(t);
    }
    var t' := AfterPhase(t, logged);
    assert t'.branch == t.branch && t'.handled == t.handled && t'.parts == t.parts && t'.sent == t.sent;
    assert BranchesOk(t');
    assert DecisionOk(t');
  }

  /** A step in which the branches stand still and no command ends. */
  predicate Quiet(s: State, a: Action) {
    Enabled(s, a) && AboutTxn(a).Some? && !a.Handle? && !a.Drop? && !a.EndPhase?
  }

  lemma QuietBranches(s: State, a: Action)
    requires Quiet(s, a) && TxnOk(s.txns[a.x])
    ensures BranchesOk(StepTxn(s.txns[a.x], a))
  {
    var t, t' := s.txns[a.x], StepTxn(s.txns[a.x], a);
    assert t'.branch == t.branch && t'.handled == t.handled && t'.parts == t.parts;
  }

  lemma QuietDecision(s: State, a: Action)
    requires Quiet(s, a) && TxnOk(s.txns[a.x])
    ensures DecisionOk(StepTxn(s.txns[a.x], a))
  {
  }

  lemma QuietKeeps(s: State, a: Action)
    requires Quiet(s, a) && TxnOk(s.txns[a.x])
    ensures TxnOk(StepTxn(s.txns[a.x], a))
  {
    var t := s.txns[a.x];
    QuietBranches(s, a);
    QuietDecision(s, a);
    assert t.phase == Over && t.decided.Some? && t.submitted.None? ==> Decided(t);
  }

  lemma StepKeepsTxn(s: State, a: Action)
    requires Enabled(s, a) && AboutTxn(a).Some? && TxnOk(s.txns[a.x])
    ensures TxnOk(StepTxn(s.txns[a.x], a))
  {
    var t := s.txns[a.x];
    if a.Handle? {
      HandleKeeps(t, a.b, a.c);
    } else if a.Drop? {
      DropKeeps(t, a.b);
    } else if a.EndPhase? {
      if t.phase.cmd in {Commit, Rollback} {
        LastPhaseKeeps(t, a.logged);
      } else {
        EarlyPhaseKeeps(t, a.logged);
      }
    } else {
      QuietKeeps(s, a);
    }
  }

  /** Every step keeps every transaction in order. */
  lemma StepKeepsOk(s: State, a: Action)
    requires Ok(s) && Enabled(s, a)
    ensures Ok(Apply(s, a))
  {
    var s' := Apply(s, a);
    if AboutTxn(a).Some? {
      StepKeepsTxn(s, a);
      assert s'.txns == s.txns[a.x := StepTxn(s.txns[a.x], a)];
    } else if a.Begin? {
      assert TxnOk(NewTxn(a.parts, a.multi));
    } else if a.Crash? {
      forall x | x in s'.txns ensures TxnOk(s'.txns[x]) {
        LoseKeeps(s.txns[x]);
      }
    }
  }

  lemma LoseKeeps(t: Txn)
    requires TxnOk(t)
    ensures TxnOk(Lose(t))
  {
  }

  lemma {:induction false} RunOk(run: seq<Action>)
    requires IsRun(run)
    ensures Ok(After(run))
    decreases |run|
  {
    if run != [] {
      RunOk(run[..|run| - 1]);
      StepKeepsOk(After(run[..|run| - 1]), run[|run| - 1]);
    }
  }

  /** At step `j` of the run, participant `p` acknowledged the PREPARE of transaction `x`. */
  ghost predicate PrepareAckedAt(run: seq<Action>, j: nat, x: Xid, p: Backend)
    requires IsRun(run)
  {
    && j < |run| && run[j] == Ack(x, p) && IsRun(run[..j])
    && x in After(run[..j]).txns
    && After(run[..j]).txns[x].phase.Running? && After(run[..j]).txns[x].phase.cmd == Prepare
  }

  lemma NewlyPrepared(s: State, a: Action, x: Xid, p: Backend)
    requires Enabled(s, a) && x in Apply(s, a).txns && p in Apply(s, a).txns[x].prepared
    requires !(x in s.txns && p in s.txns[x].prepared)
    ensures a == Ack(x, p) && x in s.txns && s.txns[x].phase.Running? && s.txns[x].phase.cmd == Prepare
  {
  }

  lemma {:induction false} PreparedWasAcked(run: seq<Action>, x: Xid, p: Backend)
    requires IsRun(run) && x in After(run).txns && p in After(run).txns[x].prepared
    ensures exists j: nat :: PrepareAckedAt(run, j, x, p)
    decreases |run|
  {
    var last := |run| - 1;
    var s := After(run[..last]);
    if x in s.txns && p in s.txns[x].prepared {
      PreparedWasAcked(run[..last], x, p);
      var j: nat :| PrepareAckedAt(run[..last], j, x, p);
      assert run[..last][..j] == run[..j];
      assert PrepareAckedAt(run, j, x, p);
    } else {
      NewlyPrepared(s, run[last], x, p);
      assert PrepareAckedAt(run, last, x, p);
    }
  }

  /** XA COMMIT is only ever sent, by the transaction or by the retry log, when every participant
      acknowledged XA PREPARE earlier in the run. */
  lemma CommitOnlyAfterAllPrepared(run: seq<Action>, x: Xid, b: Backend)
    requires IsRun(run) && x in After(run).txns && (Commit, b) in After(run).txns[x].sent
    ensures forall p | p in After(run).txns[x].parts :: exists j: nat :: PrepareAckedAt(run, j, x, p)
  {
    RunOk(run);
    forall p | p in After(run).txns[x].parts ensures exists j: nat :: PrepareAckedAt(run, j, x, p) {
      PreparedWasAcked(run, x, p);
    }
  }

  /** No xid is ever sent both XA COMMIT and XA ROLLBACK, recovery included. */
  lemma NeverBothDecisions(run: seq<Action>, x: Xid, b: Backend, d: Backend)
    requires IsRun(run) && x in After(run).txns
    ensures !((Commit, b) in After(run).txns[x].sent && (Rollback, d) in After(run).txns[x].sent)
  {
    RunOk(run);
  }

  /** No reachable state has one branch of a transaction committed and another rolled back. */
  lemma Atomic(run: seq<Action>, x: Xid, b: Backend, d: Backend)
    requires IsRun(run) && x in After(run).txns
    requires b in After(run).txns[x].branch && After(run).txns[x].branch[b] == Committed
    requires d in After(run).txns[x].branch
    ensures After(run).txns[x].branch[d] in {Prepared, Committed}
  {
    RunOk(run);
    var t := After(run).txns[x];
    assert (Commit, b) in t.handled;
    assert d in t.prepared;
    assert t.branch[d] == RolledBack ==> (Rollback, d) in t.sent;
  }

  /** A transaction that is over with a decision has every branch at that decision, or has
      submitted the decision to the retry log. */
  lemma DecisionKept(run: seq<Action>, x: Xid)
    requires IsRun(run) && x in After(run).txns
    requires After(run).txns[x].phase == Over && After(run).txns[x].decided.Some?
    ensures var t := After(run).txns[x];
      t.submitted == t.decided || forall b | b in t.parts :: b in t.branch && t.branch[b] == Result(t.decided.value)
  {
    RunOk(run);
  }

  /** A connection that goes back to the pool carries no open XA branch. */
  lemma RecycledConnectionsAreClean(run: seq<Action>, x: Xid, b: Backend)
    requires IsRun(run) && x in After(run).txns && After(run).txns[x].recycled && b in After(run).txns[x].branch
    ensures After(run).txns[x].branch[b] in {Absent, Committed, RolledBack}
    ensures After(run).txns[x].branch[b] == Absent ==> After(run).txns[x].sent == {}
  {
    RunOk(run);
  }
}
