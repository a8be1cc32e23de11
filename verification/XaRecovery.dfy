/** What the retry log brings about: a decision that it delivered has reached every branch. */
module XaRecovery {
  import opened Text
  import opened XaModel
  import opened XaAtomicity
  import opened XaVisibility
  import RetryLog

  // ---------------------------------------------------------------- no branch becomes prepared after the decision

  /** No XA PREPARE was sent. */
  predicate NoPrepare(t: Txn) {
    forall b | b in t.parts :: (Prepare, b) !in t.sent
  }

  /** Where a transaction is that has not been through PREPARE, and where it must have been. */
  ghost predicate PrepareOk(t: Txn) {
    && (t.phase == New || (t.phase.Running? && t.phase.cmd == Start) ==> NoPrepare(t))
    && (t.phase == Running(End, ToRollbackPhaseOne) || (t.phase == Open && !t.multi) ==> NoPrepare(t))
    && (t.phase == Running(End, ToCommit) && !t.multi ==> NoPrepare(t))
    && (t.phase.AwaitLock? || t.decided.Some? ==> NoPrepare(t) || t.prepared == t.parts)
  }

  lemma PrepareStep(s: State, a: Action)
    requires Enabled(s, a) && AboutTxn(a).Some? && !a.EndPhase? && TxnOk(s.txns[a.x]) && PrepareOk(s.txns[a.x])
    ensures PrepareOk(StepTxn(s.txns[a.x], a))
  {
  }

  lemma PreparePhase(t: Txn, logged: bool)
    requires TxnOk(t) && t.phase.Running? && Answered(t) && PrepareOk(t)
    ensures PrepareOk(AfterPhase(t, logged))
  {
    if t.failed == {} {
      AllAnswered(t);
    }
  }

  ghost predicate AllPrepareOk(s: State) {
    forall x | x in s.txns :: PrepareOk(s.txns[x])
  }

  lemma TxnKeepsPrepare(s: State, a: Action)
    requires Enabled(s, a) && AboutTxn(a).Some? && TxnOk(s.txns[a.x]) && PrepareOk(s.txns[a.x])
    ensures PrepareOk(StepTxn(s.txns[a.x], a))
  {
    if a.EndPhase? {
      PreparePhase(s.txns[a.x], a.logged);
    } else {
      PrepareStep(s, a);
    }
  }

  lemma LosePrepare(t: Txn)
    requires TxnOk(t) && PrepareOk(t)
    ensures PrepareOk(Lose(t))
  {
  }

  lemma NewPrepare(parts: set<Backend>, multi: bool)
    ensures PrepareOk(NewTxn(parts, multi))
  {
  }

  lemma StepKeepsPrepare(s: State, a: Action)
    requires Ok(s) && AllPrepareOk(s) && Enabled(s, a)
    ensures AllPrepareOk(Apply(s, a))
  {
    if AboutTxn(a).Some? {
      TxnKeepsPrepare(s, a);
      TxnStep(s, a);
    } else {
      OthersKeepPrepare(s, a);
    }
  }

  lemma OthersKeepPrepare(s: State, a: Action)
    requires Ok(s) && AllPrepareOk(s) && Enabled(s, a) && AboutTxn(a).None?
    ensures AllPrepareOk(Apply(s, a))
  {
    match a
    case Begin(_, parts, multi) => NewPrepare(parts, multi);
    case Crash =>
      forall x | x in s.txns ensures PrepareOk(Lose(s.txns[x])) {
        LosePrepare(s.txns[x]);
      }
    case _ =>
  }

  lemma {:induction false} RunPrepareOk(run: seq<Action>)
    requires IsRun(run)
    ensures AllPrepareOk(After(run))
    decreases |run|
  {
    if run != [] {
      RunOk(run[..|run| - 1]);
      RunPrepareOk(run[..|run| - 1]);
      StepKeepsPrepare(After(run[..|run| - 1]), run[|run| - 1]);
    }
  }

  /** The branch is not, or no longer, prepared. */
  predicate Unprepared(t: Txn, b: Backend) {
    b in t.branch && t.branch[b] != Prepared
  }

  lemma OnlyPreparePrepares(t: Txn, a: Action, b: Backend)
    requires Unprepared(t, b) && !(a.Handle? && a.c == Prepare && a.b == b)
    ensures Unprepared(StepTxn(t, a), b)
  {
  }

  lemma OthersKeepBranches(s: State, a: Action, x: Xid)
    requires Enabled(s, a) && x in s.txns && AboutTxn(a) != Some(x)
    ensures x in Apply(s, a).txns && Apply(s, a).txns[x].branch == s.txns[x].branch
  {
  }

  /** With the decision made, a branch that is not prepared never will be. */
  lemma UnpreparedStays(s: State, a: Action, x: Xid, b: Backend)
    requires Ok(s) && AllPrepareOk(s) && Enabled(s, a) && x in s.txns && s.txns[x].decided.Some? && Unprepared(s.txns[x], b)
    ensures x in Apply(s, a).txns && Unprepared(Apply(s, a).txns[x], b)
  {
    if AboutTxn(a) == Some(x) {
      PreparedIsDone(s.txns[x], b);
      OnlyPreparePrepares(s.txns[x], a, b);
      TxnStep(s, a);
    } else {
      OthersKeepBranches(s, a, x);
    }
  }

  lemma PreparedIsDone(t: Txn, b: Backend)
    requires TxnOk(t) && PrepareOk(t) && t.decided.Some? && b in t.branch
    ensures (Prepare, b) in t.sent ==> !Accepts(t.branch[b], Prepare)
  {
    if (Prepare, b) in t.sent {
      assert b in t.parts && b in t.prepared && (Prepare, b) in t.handled;
    }
  }

  lemma {:induction false} UnpreparedFrom(run: seq<Action>, j: nat, x: Xid, b: Backend)
    requires IsRun(run) && j <= |run| && IsRun(run[..j])
    requires x in After(run[..j]).txns && After(run[..j]).txns[x].decided.Some? && Unprepared(After(run[..j]).txns[x], b)
    ensures x in After(run).txns && After(run).txns[x].decided == After(run[..j]).txns[x].decided && Unprepared(After(run).txns[x], b)
    decreases |run|
  {
    if j == |run| {
      assert run[..j] == run;
    } else {
      var n := |run| - 1;
      assert run[..n][..j] == run[..j];
      UnpreparedFrom(run[..n], j, x, b);
      RunOk(run[..n]);
      RunPrepareOk(run[..n]);
      UnpreparedStays(After(run[..n]), run[n], x, b);
      DecisionStays(After(run[..n]), run[n], x);
    }
  }

  // ---------------------------------------------------------------- the scan

  /** XA RECOVER on the i-th backend was answered after the first `at[i]` steps of the run, when the decision had been made. It
      lists the transaction exactly when its branch there is prepared at that moment. */
  ghost predicate ScannedAt(run: seq<Action>, x: Xid, backends: seq<Backend>, scans: seq<Option<seq<string>>>, xaid: string, at: seq<nat>, i: nat)
    requires i < |backends| == |scans| == |at|
  {
    && at[i] <= |run| && IsRun(run[..at[i]]) && x in After(run[..at[i]]).txns
    && var t := After(run[..at[i]]).txns[x];
       && t.decided.Some? && scans[i].Some?
       && (RetryLog.Listed(scans[i].value, xaid) > 0 <==> backends[i] in t.branch && t.branch[backends[i]] == Prepared)
  }

  ghost predicate Scanned(run: seq<Action>, x: Xid, backends: seq<Backend>, scans: seq<Option<seq<string>>>, xaid: string, at: seq<nat>) {
    |backends| == |scans| == |at| && forall i: nat | i < |scans| :: ScannedAt(run, x, backends, scans, xaid, at, i)
  }

  /** Each resent decision that was acknowledged has been carried out. */
  ghost predicate CarriedOut(t: Txn, backends: seq<Backend>, a: RetryLog.Answers, need: seq<nat>) {
    t.decided.Some? && forall k | 0 <= k < |need| && a.execs(k) :: need[k] < |backends| && (t.decided.value, backends[need[k]]) in t.handled
  }

  lemma ScannedBranch(run: seq<Action>, x: Xid, backends: seq<Backend>, a: RetryLog.Answers, xaid: string, at: seq<nat>, i: nat)
    requires IsRun(run) && x in After(run).txns && Scanned(run, x, backends, a.scans, xaid, at) && RetryLog.Delivered(a, xaid)
    requires CarriedOut(After(run).txns[x], backends, a, RetryLog.Need(a.scans, xaid))
    requires i < |backends| && backends[i] in After(run).txns[x].branch
    ensures Unprepared(After(run).txns[x], backends[i])
  {
    var need, b, t := RetryLog.Need(a.scans, xaid), backends[i], After(run).txns[x];
    assert ScannedAt(run, x, backends, a.scans, xaid, at, i);
    if RetryLog.Listed(a.scans[i].value, xaid) > 0 {
      RunOk(run);
      RetryLog.NeedIsComplete(a.scans, xaid, i);
      var k :| 0 <= k < |need| && need[k] == i;
      assert a.execs(k) && (t.decided.value, b) in t.handled;
    } else {
      BranchThere(run, at[i], x, b);
      UnpreparedFrom(run, at[i], x, b);
    }
  }

  /** A transaction's branches are where they were from the start. */
  lemma {:induction false} BranchThere(run: seq<Action>, j: nat, x: Xid, b: Backend)
    requires IsRun(run) && j <= |run| && IsRun(run[..j]) && x in After(run[..j]).txns
    ensures x in After(run).txns && (b in After(run).txns[x].branch <==> b in After(run[..j]).txns[x].branch)
    decreases |run|
  {
    if j == |run| {
      assert run[..j] == run;
    } else {
      var n := |run| - 1;
      assert run[..n][..j] == run[..j];
      BranchThere(run[..n], j, x, b);
      RunOk(run[..n]);
      RunOk(run);
      PartsKept(After(run[..n]), run[n], x);
    }
  }

  /** A scan over all backends of the transaction, each answering at its own moment of the run, whose resends were all
      acknowledged: no branch is prepared any more. This is what taking a delivered entry out of the log relies on. */
  lemma ScanDelivers(run: seq<Action>, x: Xid, backends: seq<Backend>, a: RetryLog.Answers, xaid: string, at: seq<nat>)
    requires IsRun(run) && x in After(run).txns && Scanned(run, x, backends, a.scans, xaid, at) && RetryLog.Delivered(a, xaid)
    requires CarriedOut(After(run).txns[x], backends, a, RetryLog.Need(a.scans, xaid))
    requires forall b | b in After(run).txns[x].branch :: b in backends
    ensures NonePrepared(After(run).txns[x])
    ensures After(run).txns[x].log.Some? ==> Enabled(After(run), Forget(x, true))
  {
    forall b | b in After(run).txns[x].branch ensures After(run).txns[x].branch[b] != Prepared {
      var i: nat :| i < |backends| && backends[i] == b;
      ScannedBranch(run, x, backends, a, xaid, at, i);
    }
  }

  // ---------------------------------------------------------------- what a delivered decision has done

  ghost predicate AllCommitted(t: Txn) {
    t.decided == Some(Commit) && forall b | b in t.parts :: CommittedBranch(t, b)
  }

  /** With the decision to commit, branches that are not prepared are committed. */
  lemma NonePreparedCommitted(t: Txn)
    requires TxnOk(t) && t.decided == Some(Commit) && NonePrepared(t)
    ensures AllCommitted(t)
  {
    forall b | b in t.parts ensures CommittedBranch(t, b) {
      assert b in t.prepared && (Prepare, b) in t.handled;
      assert t.branch[b] == RolledBack ==> (Rollback, b) in t.sent;
    }
  }

  lemma CommittedStays(s: State, a: Action, x: Xid, b: Backend)
    requires Enabled(s, a) && x in s.txns && CommittedBranch(s.txns[x], b)
    ensures x in Apply(s, a).txns && CommittedBranch(Apply(s, a).txns[x], b)
  {
    PartsKept(s, a, x);
    if AboutTxn(a) == Some(x) {
      TxnStep(s, a);
      if !(a.Handle? && a.c == Commit) {
        OnlyCommitCommits(s, a, b);
      }
    }
  }

  lemma DecisionStays(s: State, a: Action, x: Xid)
    requires Enabled(s, a) && x in s.txns && TxnOk(s.txns[x]) && s.txns[x].decided.Some?
    ensures x in Apply(s, a).txns && Apply(s, a).txns[x].decided == s.txns[x].decided
  {
    PartsKept(s, a, x);
    if AboutTxn(a) == Some(x) {
      TxnStep(s, a);
    }
  }

  lemma AllCommittedStays(s: State, a: Action, x: Xid)
    requires Ok(s) && Enabled(s, a) && x in s.txns && AllCommitted(s.txns[x])
    ensures x in Apply(s, a).txns && AllCommitted(Apply(s, a).txns[x])
  {
    PartsKept(s, a, x);
    DecisionStays(s, a, x);
    forall b | b in s.txns[x].parts ensures CommittedBranch(Apply(s, a).txns[x], b) {
      CommittedStays(s, a, x, b);
    }
  }

  /** Once the retry log has delivered a decision, no branch is prepared, from then on. With the decision to commit all
      branches are committed, with the decision to roll back none is. */
  lemma {:induction false} DeliveredIsDone(run: seq<Action>, j: nat, x: Xid)
    requires IsRun(run) && j < |run| && run[j] == Forget(x, true)
    ensures x in After(run).txns && After(run).txns[x].decided.Some? && NonePrepared(After(run).txns[x])
    ensures After(run).txns[x].decided == Some(Commit) ==> AllCommitted(After(run).txns[x])
    ensures After(run).txns[x].decided == Some(Rollback) ==> forall b :: !CommittedBranch(After(run).txns[x], b)
    decreases |run|
  {
    var n := |run| - 1;
    var s, a := After(run[..n]), run[n];
    RunOk(run[..n]);
    RunOk(run);
    RunPrepareOk(run[..n]);
    if j < n {
      DeliveredIsDone(run[..n], j, x);
    }
    NonePreparedStays(s, a, x);
    DecisionStays(s, a, x);
    if s.txns[x].decided == Some(Commit) {
      NonePreparedCommitted(s.txns[x]);
      AllCommittedStays(s, a, x);
    }
    RolledBackNone(After(run).txns[x]);
  }

  lemma NonePreparedStays(s: State, a: Action, x: Xid)
    requires Ok(s) && AllPrepareOk(s) && Enabled(s, a) && x in s.txns && s.txns[x].decided.Some? && NonePrepared(s.txns[x])
    ensures x in Apply(s, a).txns && NonePrepared(Apply(s, a).txns[x])
  {
    StepKeepsOk(s, a);
    PartsKept(s, a, x);
    forall b | b in Apply(s, a).txns[x].branch ensures Apply(s, a).txns[x].branch[b] != Prepared {
      UnpreparedStays(s, a, x, b);
    }
  }

  lemma RolledBackNone(t: Txn)
    requires TxnOk(t)
    ensures t.decided != Some(Commit) ==> forall b :: !CommittedBranch(t, b)
  {
    forall b | CommittedBranch(t, b) ensures t.decided == Some(Commit) {
      assert b in t.parts && (Commit, b) in t.handled && (Commit, b) in t.sent;
    }
  }
}
