/** XA transactions as a step system: the proxy's transactions on one side, MySQL branches on the
    other, and between them a network that may lose, delay and repeat. */
module XaModel {
  import opened Text

  type Xid = nat
  type Backend = string
  type ReaderId = nat

  datatype Cmd = Start | End | Prepare | Commit | Rollback

  /** The states of one XA transaction branch in MySQL. */
  datatype Branch = Absent | Active | Idle | Prepared | Committed | RolledBack

  /** What a transaction is being brought to: commit, rollback by way of PREPARE, or rollback of a
      failed statement without PREPARE. */
  datatype Goal = ToCommit | ToRollback | ToRollbackPhaseOne

  datatype Phase =
    | New                          // nothing sent yet
    | Running(cmd: Cmd, goal: Goal) // one XA command under way on every participant
    | Open                         // started, statements may run
    | AwaitLock(cmd: Cmd)          // about to take the commit lock for COMMIT or ROLLBACK
    | Over                         // finished
    | Crashed                      // the proxy went down with it

  /** A transaction, with its branches and the messages on the way to them. `acked` and `failed`
      are the participants whose answer to the current command is in; `prepared` are those that
      acknowledged PREPARE; `decided` is the command sent under the commit lock; `submitted` is what
      went to the retry log, `log` what is in it. */
  datatype Txn = Txn(
    parts: set<Backend>,
    multi: bool,
    phase: Phase,
    acked: set<Backend>,
    failed: set<Backend>,
    prepared: set<Backend>,
    decided: Option<Cmd>,
    sent: set<(Cmd, Backend)>,
    handled: set<(Cmd, Backend)>,
    branch: map<Backend, Branch>,
    errors: nat,
    recycled: bool,
    submitted: Option<Cmd>,
    log: Option<Cmd>)

  /** A read: the shards it has read so far with the transactions it saw committed there. */
  datatype Reader = Reader(active: bool, seen: map<Backend, set<Xid>>)

  datatype State = State(txns: map<Xid, Txn>, writer: Option<Xid>, readers: map<ReaderId, Reader>)

  // ---------------------------------------------------------------- MySQL

  predicate Accepts(b: Branch, c: Cmd) {
    match c
    case Start => b == Absent
    case End => b == Active
    case Prepare => b == Idle
    case Commit => b == Prepared
    case Rollback => b == Idle || b == Prepared
  }

  function Result(c: Cmd): (b: Branch) {
    match c
    case Start => Active
    case End => Idle
    case Prepare => Prepared
    case Commit => Committed
    case Rollback => RolledBack
  }

  // ---------------------------------------------------------------- steps

  datatype Action =
    | Begin(x: Xid, parts: set<Backend>, multi: bool)
    | FinishUnused(x: Xid)              // a read, or a statement without a plan: no XA at all
    | XaStart(x: Xid)
    | Send(x: Xid, b: Backend)          // the current command, or its retry, leaves for a participant
    | Handle(x: Xid, b: Backend, c: Cmd) // MySQL carries out a command that was sent
    | Ack(x: Xid, b: Backend)           // the answer arrives
    | Fail(x: Xid, b: Backend)          // an error, a lost answer, a lost connection
    | Drop(x: Xid, b: Backend)          // a connection breaks: its unprepared branch is rolled back
    | EndPhase(x: Xid, logged: bool)    // every participant has answered or failed
    | Statement(x: Xid, ok: bool)
    | Decide(x: Xid, commit: bool)      // COMMIT or ROLLBACK of a multi-statement transaction
    | TakeLock(x: Xid)
    | Recover(x: Xid, b: Backend)       // the retry log resends its decision to a backend listing the xid
    | Forget(x: Xid, delivered: bool)   // the entry leaves the retry log, delivered or given up
    | Crash
    | ReadBegin(r: ReaderId)
    | Read(r: ReaderId, b: Backend)
    | ReadEnd(r: ReaderId)

  predicate Has(s: State, x: Xid) {
    x in s.txns
  }

  predicate Answered(t: Txn) {
    t.acked + t.failed == t.parts
  }

  /** No backend lists the transaction among its prepared ones. */
  predicate NonePrepared(t: Txn) {
    forall b | b in t.branch :: t.branch[b] != Prepared
  }

  predicate LockFree(s: State) {
    s.writer.None? && forall r | r in s.readers :: !s.readers[r].active
  }

  predicate Enabled(s: State, a: Action) {
    match a
    case Begin(x, parts, _) => x !in s.txns && parts != {}
    case FinishUnused(x) => Has(s, x) && s.txns[x].phase == New
    case XaStart(x) => Has(s, x) && s.txns[x].phase == New
    case Send(x, b) => Has(s, x) && s.txns[x].phase.Running? && b in s.txns[x].parts - s.txns[x].acked - s.txns[x].failed
    case Handle(x, b, c) => Has(s, x) && (c, b) in s.txns[x].sent && b in s.txns[x].branch && Accepts(s.txns[x].branch[b], c)
    case Ack(x, b) =>
      && Has(s, x) && s.txns[x].phase.Running? && b in s.txns[x].parts - s.txns[x].acked - s.txns[x].failed
      && (s.txns[x].phase.cmd, b) in s.txns[x].handled
    case Fail(x, b) => Has(s, x) && s.txns[x].phase.Running? && b in s.txns[x].parts - s.txns[x].acked - s.txns[x].failed
    case Drop(x, b) => Has(s, x) && b in s.txns[x].branch && (s.txns[x].branch[b] == Active || s.txns[x].branch[b] == Idle)
    case EndPhase(x, _) => Has(s, x) && s.txns[x].phase.Running? && Answered(s.txns[x])
    case Statement(x, _) => Has(s, x) && s.txns[x].phase == Open
    case Decide(x, _) => Has(s, x) && s.txns[x].phase == Open && s.txns[x].multi
    case TakeLock(x) => Has(s, x) && s.txns[x].phase.AwaitLock? && LockFree(s)
    case Recover(x, b) => Has(s, x) && s.txns[x].log.Some? && b in s.txns[x].branch && s.txns[x].branch[b] == Prepared
    case Forget(x, delivered) => Has(s, x) && s.txns[x].log.Some? && (delivered ==> NonePrepared(s.txns[x]))
    case Crash => true
    case ReadBegin(r) => r !in s.readers && s.writer.None?
    case Read(r, b) => r in s.readers && s.readers[r].active && b !in s.readers[r].seen
    case ReadEnd(r) => r in s.readers && s.readers[r].active
  }

  function NewTxn(parts: set<Backend>, multi: bool): (t: Txn) {
    Txn(parts, multi, New, {}, {}, {}, None, {}, {}, map b | b in parts :: Absent, 0, false, None, None)
  }

  /** The next command starts with no answers in. */
  function Run(t: Txn, c: Cmd, g: Goal): (t': Txn) {
    t.(phase := Running(c, g), acked := {}, failed := {})
  }

  /** Finish: connections go back to the pool unless an error was counted. */
  function Finish(t: Txn): (t': Txn) {
    t.(phase := Over, recycled := t.errors == 0)
  }

  /** After a failed phase a single-statement transaction ends; a multi-statement one stays with its
      session, which may ask for COMMIT or ROLLBACK again. */
  function GiveUp(t: Txn): (t': Txn) {
    if t.multi then t.(phase := Open) else Finish(t)
  }

  /** The end of one command, in the order of the driver. */
  function AfterPhase(t: Txn, logged: bool): (t': Txn)
    requires t.phase.Running?
  {
    var ok := t.failed == {};
    var e := if ok then t else t.(errors := t.errors + 1);
    match t.phase.cmd
    case Start =>
      if ok then t.(phase := Open)
      else if t.multi then Finish(e) else Run(e, End, ToRollbackPhaseOne)
    case End =>
      if !ok then GiveUp(e)
      else if t.phase.goal == ToRollbackPhaseOne then t.(phase := AwaitLock(Rollback))
      else Run(t, Prepare, t.phase.goal)
    case Prepare =>
      if !ok then GiveUp(e)
      else t.(phase := AwaitLock(if t.phase.goal == ToCommit then Commit else Rollback))
    case _ =>
      if ok then Finish(t)
      else Finish(e.(submitted := Some(t.phase.cmd), log := if logged then Some(t.phase.cmd) else t.log))
  }

  /** How a step changes the transaction it is about. */
  function StepTxn(t: Txn, a: Action): (t': Txn) {
    match a
    case FinishUnused(_) => Finish(t)
    case XaStart(_) => Run(t, Start, ToCommit)
    case Send(_, b) => if t.phase.Running? then t.(sent := t.sent + {(t.phase.cmd, b)}) else t
    case Handle(_, b, c) => t.(handled := t.handled + {(c, b)}, branch := t.branch[b := Result(c)])
    case Ack(_, b) =>
      t.(acked := t.acked + {b},
         prepared := if t.phase.Running? && t.phase.cmd == Prepare then t.prepared + {b} else t.prepared)
    case Fail(_, b) => t.(failed := t.failed + {b})
    case Drop(_, b) => t.(branch := t.branch[b := RolledBack])
    case EndPhase(_, logged) => if t.phase.Running? then AfterPhase(t, logged) else t
    case Statement(_, ok) =>
      if ok then if t.multi then t else Run(t, End, ToCommit)
      else var e := t.(errors := t.errors + 1);
        if t.multi then e else Run(e, End, ToRollbackPhaseOne)
    case Decide(_, commit) => Run(t, End, if commit then ToCommit else ToRollback)
    case TakeLock(_) =>
      if t.phase.AwaitLock? then Run(t, t.phase.cmd, ToCommit).(decided := Some(t.phase.cmd)) else t
    case Recover(_, b) => if t.log.Some? then t.(sent := t.sent + {(t.log.value, b)}) else t
    case Forget(_, _) => t.(log := None)
    case _ => t
  }

  /** The transactions with a branch committed on a backend. */
  function CommittedOn(s: State, b: Backend): (xs: set<Xid>) {
    set x | x in s.txns && b in s.txns[x].branch && s.txns[x].branch[b] == Committed
  }

  /** The writer keeps the lock from TakeLock to the end of its command. */
  function NextWriter(s: State, a: Action): (w: Option<Xid>) {
    match a
    case TakeLock(x) => Some(x)
    case EndPhase(x, _) => if s.writer == Some(x) then None else s.writer
    case Crash => None
    case _ => s.writer
  }

  function AboutTxn(a: Action): (x: Option<Xid>) {
    match a
    case Begin(_, _, _) => None
    case Crash => None
    case ReadBegin(_) => None
    case Read(_, _) => None
    case ReadEnd(_) => None
    case _ => Some(a.x)
  }

  /** A proxy that goes down takes every unfinished transaction with it. */
  function Lose(t: Txn): (t': Txn) {
    if t.phase == Over then t else t.(phase := Crashed)
  }

  function Apply(s: State, a: Action): (s': State)
    requires Enabled(s, a)
  {
    match a
    case Begin(x, parts, multi) => s.(txns := s.txns[x := NewTxn(parts, multi)])
    case Crash =>
      State(map x | x in s.txns :: Lose(s.txns[x]), None,
            map r | r in s.readers :: s.readers[r].(active := false))
    case ReadBegin(r) => s.(readers := s.readers[r := Reader(true, map[])])
    case Read(r, b) => s.(readers := s.readers[r := s.readers[r].(seen := s.readers[r].seen[b := CommittedOn(s, b)])])
    case ReadEnd(r) => s.(readers := s.readers[r := s.readers[r].(active := false)])
    case _ => s.(txns := s.txns[a.x := StepTxn(s.txns[a.x], a)], writer := NextWriter(s, a))
  }

  const Init: State := State(map[], None, map[])

  // ---------------------------------------------------------------- runs

  /** Every step of the run is possible where it is taken. */
  predicate IsRun(run: seq<Action>)
    decreases |run|, 0
  {
    run == [] || (IsRun(run[..|run| - 1]) && Enabled(After(run[..|run| - 1]), run[|run| - 1]))
  }

  function After(run: seq<Action>): (s: State)
    requires IsRun(run)
    decreases |run|, 1
  {
    if run == [] then Init else Apply(After(run[..|run| - 1]), run[|run| - 1])
  }
}
