/** The retry log of XA decisions that did not reach every participant. */
module RetryLog {
  import opened Text

  datatype Decision = CommitIt | RollbackIt

  datatype Entry = Entry(xaid: string, state: Decision, times: int)

  /** What the backends answer while one entry is retried: whether a transaction could be created,
      for each backend the xids its XA RECOVER lists (None for an error), and for each resent
      decision whether it was acknowledged. */
  datatype Answers = Answers(created: bool, scans: seq<Option<seq<string>>>, execs: nat -> bool)

  // ---------------------------------------------------------------- one entry against the backends

  /** How often a list of recovered xids names `xaid`. */
  function Listed(xids: seq<string>, xaid: string): (n: nat) {
    if xids == [] then 0
    else Listed(xids[..|xids| - 1], xaid) + if EqualFold(xids[|xids| - 1], xaid) then 1 else 0
  }

  predicate ScanOk(a: Answers) {
    a.created && a.scans != [] && forall i | 0 <= i < |a.scans| :: a.scans[i].Some?
  }

  /** The backends to resend to, by number: one for every listing of the xid. */
  function Need(scans: seq<Option<seq<string>>>, xaid: string): (need: seq<nat>)
    requires forall i | 0 <= i < |scans| :: scans[i].Some?
    ensures forall i | i in need :: i < |scans|
  {
    if scans == [] then []
    else
      var last := |scans| - 1;
      Need(scans[..last], xaid) + seq(Listed(scans[last].value, xaid), _ => last)
  }

  /** The scan went over every backend without an error, and every backend that lists the xid
      acknowledged the decision. */
  predicate Delivered(a: Answers, xaid: string) {
    && ScanOk(a)
    && Need(a.scans, xaid) != []
    && forall i | 0 <= i < |Need(a.scans, xaid)| :: a.execs(i)
  }

  /** Every backend whose XA RECOVER lists the xid is among those to resend to. */
  lemma {:induction false} NeedIsComplete(scans: seq<Option<seq<string>>>, xaid: string, b: nat)
    requires forall i | 0 <= i < |scans| :: scans[i].Some?
    requires b < |scans| && Listed(scans[b].value, xaid) > 0
    ensures b in Need(scans, xaid)
  {
    var last := |scans| - 1;
    if b == last {
      assert seq(Listed(scans[last].value, xaid), _ => last)[0] == last;
      assert Need(scans, xaid)[|Need(scans[..last], xaid)|] == last;
    } else {
      NeedIsComplete(scans[..last], xaid, b);
    }
  }

  // ---------------------------------------------------------------- the log

  /** Entries by xid, as kept in memory. */
  type Log = map<string, Entry>

  ghost predicate Keyed(log: Log) {
    forall x | x in log :: log[x].xaid == x
  }

  /** The tries counted for an xid since the file was last written. */
  function Tries(counted: map<string, nat>, x: string): (n: nat) {
    if x in counted then counted[x] else 0
  }

  function OneMoreTry(counted: map<string, nat>, x: string): (after: map<string, nat>) {
    counted[x := Tries(counted, x) + 1]
  }

  /** Each entry of the file has the tries that memory has left and those counted since it was written. */
  ghost predicate TimesBehind(file: seq<Entry>, log: Log, counted: map<string, nat>) {
    forall e | e in file && e.xaid in log :: e.times == log[e.xaid].times + Tries(counted, e.xaid)
  }

  /** The file has the xids and decisions of memory, each once. Counts may be older. */
  ghost predicate SameDecisions(file: seq<Entry>, log: Log) {
    && (forall i, j | 0 <= i < j < |file| :: file[i].xaid != file[j].xaid)
    && (forall e | e in file :: e.xaid in log && log[e.xaid].state == e.state)
    && (forall x | x in log :: exists e | e in file :: e.xaid == x)
  }

  /** Every entry of the later file is in the earlier one, with no fewer tries. */
  ghost predicate NoMoreTries(file: seq<Entry>, file': seq<Entry>) {
    forall e' | e' in file' :: exists e | e in file :: FewerTries(e, e')
  }

  predicate FewerTries(e: Entry, e': Entry) {
    e.xaid == e'.xaid && e.state == e'.state && e'.times <= e.times
  }

  lemma NoMoreTriesTwice(file: seq<Entry>, mid: seq<Entry>, file': seq<Entry>)
    requires NoMoreTries(file, mid) && NoMoreTries(mid, file')
    ensures NoMoreTries(file, file')
  {
    forall e' | e' in file' ensures exists e | e in file :: FewerTries(e, e') {
      var m :| m in mid && FewerTries(m, e');
      var e :| e in file && FewerTries(e, m);
      assert FewerTries(e, e');
    }
  }

  /** What is written from memory after some entry left has no more tries than the file before. */
  lemma FlushedLess(file: seq<Entry>, log: Log, counted: map<string, nat>, file': seq<Entry>, log': Log)
    requires SameDecisions(file, log) && TimesBehind(file, log, counted) && Keyed(log)
    requires forall e' | e' in file' :: e'.xaid in log' && log'[e'.xaid] == e'
    requires forall x | x in log' :: x in log && log'[x] == log[x]
    ensures NoMoreTries(file, file')
  {
    forall e' | e' in file' ensures exists e | e in file :: FewerTries(e, e') {
      var e :| e in file && e.xaid == e'.xaid;
      assert FewerTries(e, e');
    }
  }

  /** What retrying entry `x` does to the log and to the list of entries given up. */
  ghost predicate Retried(log: Log, log': Log, given: seq<Entry>, given': seq<Entry>, x: string, delivered: bool) {
    && x in log
    && if delivered then log' == log - {x} && given' == given
       else if log[x].times <= 0 then log' == log - {x} && given' == given + [log[x]]
       else log' == log[x := log[x].(times := log[x].times - 1)] && given' == given
  }

  /** What became of one entry in a round of retries. */
  ghost predicate Treated(log: Log, log': Log, added: seq<Entry>, x: string, delivered: bool)
    requires x in log
  {
    if delivered then x !in log'
    else if log[x].times <= 0 then x !in log' && log[x] in added
    else x in log' && log'[x] == log[x].(times := log[x].times - 1)
  }

  /** A round of retries over the whole log. A round that ends with an error may have treated some
      of the entries; one that does not has treated them all. */
  ghost predicate Round(log: Log, log': Log, given: seq<Entry>, given': seq<Entry>, answers: string -> Answers, err: bool) {
    && given <= given'
    && log'.Keys <= log.Keys
    && (forall x | x in log :: Treated(log, log', given'[|given|..], x, Delivered(answers(x), x))
                               || (err && x in log' && log'[x] == log[x]))
  }

  /** A round in which the entries of `todo` are still to be treated. */
  ghost predicate Partly(log: Log, log': Log, given: seq<Entry>, given': seq<Entry>, answers: string -> Answers, todo: set<string>) {
    && given <= given'
    && todo <= log'.Keys <= log.Keys
    && (forall x | x in todo :: log'[x] == log[x])
    && (forall x | x in log && x !in todo :: Treated(log, log', given'[|given|..], x, Delivered(answers(x), x)))
  }

  lemma PartlyStep(log: Log, mid: Log, log': Log, given: seq<Entry>, mid2: seq<Entry>, given': seq<Entry>,
                   answers: string -> Answers, todo: set<string>, x: string)
    requires Partly(log, mid, given, mid2, answers, todo) && x in todo
    requires Retried(mid, log', mid2, given', x, Delivered(answers(x), x))
    ensures Partly(log, log', given, given', answers, todo - {x})
  {
    var added, added' := mid2[|given|..], given'[|given|..];
    assert given' == mid2 ==> added' == added;
    if given' == mid2 + [log[x]] {
      assert added' == added + [log[x]];
      assert log[x] in added';
    }
    assert forall e | e in added :: e in added';
    forall y | y in log && y !in todo - {x} ensures Treated(log, log', added', y, Delivered(answers(y), y)) {
      if y != x {
        assert Treated(log, mid, added, y, Delivered(answers(y), y));
      }
    }
  }

  class XaCheck {
    const times: int
    var retrys: Log
    var file: seq<Entry>
    var timesOut: seq<Entry>
    ghost var counted: map<string, nat>

    ghost predicate Valid()
      reads this
    {
      Keyed(retrys) && SameDecisions(file, retrys) && TimesBehind(file, retrys, counted)
    }

    constructor (times: int, file: seq<Entry>, timesOut: seq<Entry>)
      ensures this.times == times && retrys == map[] && this.file == file && this.timesOut == timesOut && counted == map[]
    {
      this.times, this.retrys, this.file, this.timesOut, this.counted := times, map[], file, timesOut, map[];
    }

    method AddXaCommitErrLog(e: Entry) returns (ok: bool)
      modifies this`retrys
      ensures ok <==> e.xaid !in old(retrys)
      ensures retrys == if ok then old(retrys)[e.xaid := e] else old(retrys)
    {
      if e.xaid in retrys {
        return false;
      }
      retrys := retrys[e.xaid := e];
      return true;
    }

    /** Writes every entry to the file, in the order the map happens to give them. */
    method FlushXaCommitErrLog()
      requires Keyed(retrys)
      modifies this`file, this`counted
      ensures Valid() && counted == map[]
      ensures forall e | e in file :: e.xaid in retrys && retrys[e.xaid] == e
    {
      var logs: seq<Entry> := [];
      var keys := retrys.Keys;
      while keys != {}
        invariant keys <= retrys.Keys
        invariant forall i, j | 0 <= i < j < |logs| :: logs[i].xaid != logs[j].xaid
        invariant forall e | e in logs :: e.xaid in retrys && e.xaid !in keys && retrys[e.xaid] == e
        invariant forall x | x in retrys && x !in keys :: retrys[x] in logs
        decreases keys
      {
        var k :| k in keys;
        logs := logs + [retrys[k]];
        keys := keys - {k};
      }
      file, counted := logs, map[];
    }

    /** A new decision is in memory and in the file; an xid that is already logged is refused. */
    method WriteXaCommitErrLog(xaid: string, state: Decision) returns (ok: bool)
      requires Valid()
      modifies this`retrys, this`file, this`counted
      ensures Valid() && counted == if ok then map[] else old(counted)
      ensures ok <==> xaid !in old(retrys)
      ensures retrys == if ok then old(retrys)[xaid := Entry(xaid, state, times)] else old(retrys)
    {
      ok := AddXaCommitErrLog(Entry(xaid, state, times));
      if ok {
        FlushXaCommitErrLog();
      }
    }

    /** The backends that list the xid; fails at the first one that does not answer. */
    static method ScanBackends(a: Answers, xaid: string) returns (ok: bool, need: seq<nat>)
      requires a.created && a.scans != []
      ensures ok <==> ScanOk(a)
      ensures ok ==> need == Need(a.scans, xaid)
    {
      need := [];
      for b := 0 to |a.scans|
        invariant forall i | 0 <= i < b :: a.scans[i].Some?
        invariant need == Need(a.scans[..b], xaid)
      {
        if a.scans[b].None? {
          return false, [];
        }
        var rows := a.scans[b].value;
        ghost var before := need;
        for r := 0 to |rows|
          invariant need == before + seq(Listed(rows[..r], xaid), _ => b)
        {
          assert rows[..r + 1][..r] == rows[..r];
          if EqualFold(rows[r], xaid) {
            need := need + [b];
          }
        }
        assert rows[..|rows|] == rows;
        assert a.scans[..b + 1][..b] == a.scans[..b];
      }
      assert a.scans[..|a.scans|] == a.scans;
      return true, need;
    }

    static method Resend(a: Answers, need: seq<nat>) returns (count: nat)
      ensures count == |need| <==> forall i | 0 <= i < |need| :: a.execs(i)
    {
      count := 0;
      for i := 0 to |need|
        invariant count <= i
        invariant count == i <==> forall k | 0 <= k < i :: a.execs(k)
      {
        if a.execs(i) {
          count := count + 1;
        }
      }
    }

    /** Retries one entry. An error leaves everything as it was. Without an error the entry is done
        when its decision was delivered, or when its tries are used up and it is written to the
        file of given-up entries; otherwise one try is used up. */
    method CommitRetryBackends(x: string, a: Answers) returns (done: bool, err: bool)
      requires Keyed(retrys) && x in retrys
      modifies this`retrys, this`timesOut, this`counted
      ensures counted == if done || err then old(counted) else OneMoreTry(old(counted), x)
      ensures err <==> !ScanOk(a)
      ensures err ==> !done && retrys == old(retrys) && timesOut == old(timesOut)
      ensures !err ==> (done <==> Delivered(a, x) || old(retrys[x].times) <= 0)
      ensures !err ==> Retried(old(retrys), if done then retrys - {x} else retrys, old(timesOut), timesOut, x, Delivered(a, x))
      ensures done ==> retrys == old(retrys)
    {
      if |a.scans| == 0 || !a.created {
        return false, true;
      }
      var ok, need := ScanBackends(a, x);
      if !ok {
        return false, true;
      }
      var count := Resend(a, need);
      if count > 0 && count == |need| {
        return true, false;
      }
      assert !Delivered(a, x);
      if retrys[x].times <= 0 {
        timesOut := timesOut + [retrys[x]];
        return true, false;
      }
      retrys := retrys[x := retrys[x].(times := retrys[x].times - 1)];
      counted := OneMoreTry(counted, x);
      return false, false;
    }

    /** Retries one entry and takes it out of memory and file when it is done. */
    method RetryOne(x: string, a: Answers) returns (err: bool)
      requires Valid() && x in retrys
      modifies this`retrys, this`file, this`timesOut, this`counted
      ensures Valid()
      ensures counted == if err then old(counted) else if x in retrys then OneMoreTry(old(counted), x) else map[]
      ensures NoMoreTries(old(file), file)
      ensures err <==> !ScanOk(a)
      ensures err ==> retrys == old(retrys) && timesOut == old(timesOut)
      ensures !err ==> Retried(old(retrys), retrys, old(timesOut), timesOut, x, Delivered(a, x))
    {
      var done;
      done, err := CommitRetryBackends(x, a);
      if done {
        retrys := retrys - {x};
        FlushXaCommitErrLog();
        FlushedLess(old(file), old(retrys), old(counted), file, retrys);
      }
    }

    /** One round: every entry is retried, in the order the map happens to give them; the first
        error ends the round. */
    method XaCommitsRetryMain(answers: string -> Answers) returns (err: bool)
      requires Valid()
      modifies this`retrys, this`file, this`timesOut, this`counted
      ensures Valid()
      ensures Round(old(retrys), retrys, old(timesOut), timesOut, answers, err) && NoMoreTries(old(file), file)
    {
      var todo := retrys.Keys;
      while todo != {}
        invariant Valid() && Partly(old(retrys), retrys, old(timesOut), timesOut, answers, todo) && NoMoreTries(old(file), file)
        decreases todo
      {
        var x :| x in todo;
        ghost var log, given, before := retrys, timesOut, file;
        err := RetryOne(x, answers(x));
        NoMoreTriesTwice(old(file), before, file);
        if err {
          return;
        }
        PartlyStep(old(retrys), log, retrys, old(timesOut), given, timesOut, answers, todo, x);
        todo := todo - {x};
      }
      err := false;
    }

    /** Loads the file into memory; refuses a file that names an xid twice. */
    method LoadXaCommitErrLogs() returns (ok: bool)
      requires retrys == map[] && counted == map[]
      modifies this`retrys
      ensures ok <==> forall i, j | 0 <= i < j < |file| :: file[i].xaid != file[j].xaid
      ensures ok ==> Valid() && forall e | e in file :: e.xaid in retrys && retrys[e.xaid] == e
    {
      for i := 0 to |file|
        invariant Keyed(retrys)
        invariant forall j, k | 0 <= j < k < i :: file[j].xaid != file[k].xaid
        invariant forall j | 0 <= j < i :: file[j].xaid in retrys && retrys[file[j].xaid] == file[j]
        invariant forall x | x in retrys :: exists j | 0 <= j < i :: file[j].xaid == x
      {
        var added := AddXaCommitErrLog(file[i]);
        if !added {
          ghost var j :| 0 <= j < i && file[j].xaid == file[i].xaid;
          assert file[j].xaid == file[i].xaid;
          return false;
        }
      }
      forall x | x in retrys ensures exists e | e in file :: e.xaid == x {
        var j :| 0 <= j < |file| && file[j].xaid == x;
        assert file[j] in file;
      }
      return true;
    }
  }

  /** A restart finds every decision again: what is loaded from the file that belonged to `log` has the same xids
      with the same decisions. It has more tries than memory had left, by those counted since the file was last
      written; so it has the same number if and only if none was counted since. */
  lemma ReloadRestores(file: seq<Entry>, log: Log, counted: map<string, nat>, loaded: Log)
    requires SameDecisions(file, log) && TimesBehind(file, log, counted)
    requires SameDecisions(file, loaded) && TimesBehind(file, loaded, map[])
    ensures loaded.Keys == log.Keys
    ensures forall x | x in log :: loaded[x].state == log[x].state && loaded[x].times == log[x].times + Tries(counted, x)
    ensures forall x | x in log :: loaded[x].times == log[x].times <==> Tries(counted, x) == 0
  {
    forall x | x in log ensures x in loaded && loaded[x].state == log[x].state && loaded[x].times == log[x].times + Tries(counted, x) {
      var e :| e in file && e.xaid == x;
      assert e.times == loaded[x].times + Tries(map[], x);
    }
    forall x | x in loaded ensures x in log {
      var e :| e in file && e.xaid == x;
    }
  }

  /** A round in which the one backend does not list the xid. */
  function NotListed(xaid: string): (a: Answers) {
    Answers(true, [Some([])], _ => false)
  }

  lemma NothingDelivered(x: string)
    ensures ScanOk(NotListed(x)) && !Delivered(NotListed(x), x)
  {
    assert NotListed(x).scans[..0] == [] && Need(NotListed(x).scans, x) == [];
  }

  /** A decision is logged, and one try is used up. */
  method LogAndTry(times: int, xaid: string, state: Decision) returns (xc: XaCheck)
    requires times > 0
    ensures fresh(xc) && xc.Valid() && xc.retrys == map[xaid := Entry(xaid, state, times - 1)] && Tries(xc.counted, xaid) == 1
  {
    xc := new XaCheck(times, [], []);
    var ok := xc.WriteXaCommitErrLog(xaid, state);
    NothingDelivered(xaid);
    var err := xc.RetryOne(xaid, NotListed(xaid));
  }

  /** When the proxy then restarts, the try is there again. */
  method TryForgotten(times: int, xaid: string, state: Decision) returns (left: int, reloaded: int)
    requires times > 0
    ensures left == times - 1 && reloaded == times
  {
    var xc := LogAndTry(times, xaid, state);
    left := xc.retrys[xaid].times;
    var again := new XaCheck(times, xc.file, xc.timesOut);
    var ok := again.LoadXaCommitErrLogs();
    ReloadRestores(xc.file, xc.retrys, xc.counted, again.retrys);
    reloaded := again.retrys[xaid].times;
  }

  // ---------------------------------------------------------------- whole runs of the log

  /** A step: a decision is written, a round of retries, or a restart of the proxy. */
  datatype Step =
    | Wrote(e: Entry)
    | Tried(answers: string -> Answers, err: bool)
    | Restarted

  datatype LogState = LogState(log: Log, given: seq<Entry>, file: seq<Entry>)

  /** What the methods of the log promise of each step. */
  ghost predicate Follows(s: LogState, step: Step, s': LogState) {
    && SameDecisions(s'.file, s'.log)
    && match step
       case Wrote(e) =>
         && e.xaid !in s.log && s'.log == s.log[e.xaid := e] && s'.given == s.given
         && forall f | f in s'.file :: f.xaid in s'.log && s'.log[f.xaid] == f
       case Tried(answers, err) => Round(s.log, s'.log, s.given, s'.given, answers, err) && NoMoreTries(s.file, s'.file)
       case Restarted =>
         && s'.given == s.given && s'.file == s.file && SameDecisions(s.file, s.log)
         && forall f | f in s'.file :: f.xaid in s'.log && s'.log[f.xaid] == f
  }

  /** The states of a run, one more than its steps. */
  ghost predicate IsLogRun(states: seq<LogState>, steps: seq<Step>) {
    |states| == |steps| + 1 && forall i | 0 <= i < |steps| :: Follows(states[i], steps[i], states[i + 1])
  }

  predicate GoodRound(step: Step) {
    step.Tried? && !step.err
  }

  /** The rounds without an error. */
  function GoodRounds(steps: seq<Step>): (n: nat) {
    if steps == [] then 0 else GoodRounds(steps[..|steps| - 1]) + if GoodRound(steps[|steps| - 1]) then 1 else 0
  }

  /** Those since the last restart. */
  function RoundsSince(steps: seq<Step>): (n: nat) {
    if steps == [] || steps[|steps| - 1].Restarted? then 0
    else RoundsSince(steps[..|steps| - 1]) + if GoodRound(steps[|steps| - 1]) then 1 else 0
  }

  function Restarts(steps: seq<Step>): (n: nat) {
    if steps == [] then 0 else Restarts(steps[..|steps| - 1]) + if steps[|steps| - 1].Restarted? then 1 else 0
  }

  /** Round `i` is the one in which the xid's decision was delivered to every backend listing it. */
  ghost predicate DeliveredIn(steps: seq<Step>, i: nat, x: string) {
    i < |steps| && steps[i].Tried? && Delivered(steps[i].answers(x), x)
  }

  /** The entry is logged with the state, and has no more than `n` tries in the file. */
  ghost predicate Logged(s: LogState, x: string, state: Decision, n: nat) {
    && x in s.log && s.log[x].xaid == x && s.log[x].state == state
    && forall f | f in s.file && f.xaid == x :: f.times <= n && f.state == state
  }

  /** The entry has left: a round delivered it to every backend that listed it, or it was given up. */
  ghost predicate Left(steps: seq<Step>, s: LogState, x: string, state: Decision) {
    (exists i: nat :: DeliveredIn(steps, i, x)) || (exists g | g in s.given :: g.xaid == x && g.state == state)
  }

  /** A round counts one try, or the entry leaves. */
  lemma RoundStep(s: LogState, step: Step, s': LogState, x: string, state: Decision, n: nat)
    requires Follows(s, step, s') && step.Tried? && Logged(s, x, state, n)
    ensures s.given <= s'.given
    ensures x in s'.log ==> Logged(s', x, state, n) && s'.log[x].times <= s.log[x].times
    ensures x in s'.log && !step.err ==> s.log[x].times > 0 && s'.log[x].times == s.log[x].times - 1
    ensures x !in s'.log ==> Delivered(step.answers(x), x) || s.log[x] in s'.given
  {
    if x !in s'.log && !Delivered(step.answers(x), x) {
      var added := s'.given[|s.given|..];
      assert s.log[x] in added;
      var i :| 0 <= i < |added| && added[i] == s.log[x];
      assert s'.given[|s.given| + i] == s.log[x];
    }
    if x in s'.log {
      forall f' | f' in s'.file && f'.xaid == x ensures f'.times <= n && f'.state == state {
        var f :| f in s.file && FewerTries(f, f');
      }
    }
  }

  /** Writing another decision keeps the entry; its file is as new as memory. */
  lemma WroteStep(s: LogState, step: Step, s': LogState, x: string, state: Decision, n: nat)
    requires Follows(s, step, s') && step.Wrote? && step.e.xaid != x && Logged(s, x, state, n) && s.log[x].times <= n
    ensures Logged(s', x, state, n) && s'.log[x] == s.log[x] && s'.given == s.given
  {
  }

  /** A restart brings back the tries of the file. */
  lemma RestartStep(s: LogState, step: Step, s': LogState, x: string, state: Decision, n: nat)
    requires Follows(s, step, s') && step.Restarted? && Logged(s, x, state, n)
    ensures Logged(s', x, state, n) && s'.log[x].times <= n && s'.given == s.given
  {
    var f :| f in s.file && f.xaid == x;
    assert s'.log[x] == f;
  }

  /** A logged decision is never changed and never dropped, whatever rounds, writes and restarts there are: it is still
      logged with the same state, or a round delivered it to every backend that listed it, or it was written to the file
      of given-up entries. With `n` tries at first, it is still logged only while the error-free rounds since the last
      restart are no more than `n`, and all of them no more than `n` for each time the proxy was started. */
  lemma DecisionNeverDropped(states: seq<LogState>, steps: seq<Step>, x: string, n: nat)
    requires IsLogRun(states, steps) && x in states[0].log
    requires Logged(states[0], x, states[0].log[x].state, n) && states[0].log[x].times <= n
    requires forall i | 0 <= i < |steps| :: steps[i].Wrote? ==> steps[i].e.xaid != x
    ensures var state, last := states[0].log[x].state, states[|steps|];
      if x in last.log then last.log[x].state == state && RoundsSince(steps) <= n && GoodRounds(steps) <= (Restarts(steps) + 1) * n
      else Left(steps, last, x, state)
  {
    LeftOrCounting(states, steps, x, n);
    assert (Restarts(steps) + 1) * n == Restarts(steps) * n + n;
  }

  /** The tries left and the rounds counted. */
  ghost predicate Counting(s: LogState, steps: seq<Step>, x: string, state: Decision, n: nat) {
    && Logged(s, x, state, n) && s.log[x].times <= n - RoundsSince(steps)
    && (RoundsSince(steps) > 0 ==> s.log[x].times >= 0)
    && GoodRounds(steps) <= Restarts(steps) * n + RoundsSince(steps)
  }

  lemma CountingStep(s: LogState, step: Step, s': LogState, steps: seq<Step>, x: string, state: Decision, n: nat)
    requires Follows(s, step, s') && Counting(s, steps, x, state, n) && (step.Wrote? ==> step.e.xaid != x)
    ensures s.given <= s'.given
    ensures x in s'.log ==> Counting(s', steps + [step], x, state, n)
    ensures x !in s'.log ==> Left(steps + [step], s', x, state)
  {
    assert (steps + [step])[..|steps|] == steps;
    match step
    case Wrote(_) => WroteStep(s, step, s', x, state, n);
    case Restarted =>
      RestartStep(s, step, s', x, state, n);
      assert (Restarts(steps) + 1) * n == Restarts(steps) * n + n;
    case Tried(_, _) =>
      RoundStep(s, step, s', x, state, n);
      if x !in s'.log && Delivered(step.answers(x), x) {
        assert DeliveredIn(steps + [step], |steps|, x);
      }
  }

  /** What has left stays so. */
  lemma LeftStep(s: LogState, step: Step, s': LogState, steps: seq<Step>, x: string, state: Decision)
    requires Follows(s, step, s') && Left(steps, s, x, state)
    ensures Left(steps + [step], s', x, state)
  {
    if exists i: nat :: DeliveredIn(steps, i, x) {
      var i: nat :| DeliveredIn(steps, i, x);
      assert DeliveredIn(steps + [step], i, x);
    } else {
      var g :| g in s.given && g.xaid == x && g.state == state;
      assert s.given <= s'.given;
      assert g in s'.given;
    }
  }

  /** The entry is still there with its tries counted down, or it has left. */
  lemma {:induction false} LeftOrCounting(states: seq<LogState>, steps: seq<Step>, x: string, n: nat)
    requires IsLogRun(states, steps) && x in states[0].log
    requires Logged(states[0], x, states[0].log[x].state, n) && states[0].log[x].times <= n
    requires forall i | 0 <= i < |steps| :: steps[i].Wrote? ==> steps[i].e.xaid != x
    ensures var state, last := states[0].log[x].state, states[|steps|];
      (x in last.log && Counting(last, steps, x, state, n)) || Left(steps, last, x, state)
    ensures x in states[|steps|].log ==> Counting(states[|steps|], steps, x, states[0].log[x].state, n)
    decreases |steps|
  {
    if steps != [] {
      var k := |steps| - 1;
      var state := states[0].log[x].state;
      LeftOrCounting(states[..k + 1], steps[..k], x, n);
      assert steps == steps[..k] + [steps[k]] && Follows(states[k], steps[k], states[k + 1]);
      if x in states[k].log {
        CountingStep(states[k], steps[k], states[k + 1], steps[..k], x, state, n);
      } else {
        LeftStep(states[k], steps[k], states[k + 1], steps[..k], x, state);
        assert x !in states[k + 1].log;
      }
    }
  }
}
