/** The migration runner as a protocol of many replicas over one database (packages/db/src/migrate.js). */
module Migrations {
  import opened Wrappers
  import opened OrderedSets

  /** Where one replica stands in its pass; `applied` is the set it read after taking the lock. */
  datatype Phase =
    | Booting
    | Locked
    | Scanning(applied: set<string>, next: nat)
    | InTx(applied: set<string>, next: nat)
    | SqlDone(applied: set<string>, next: nat)
    | RowDone(applied: set<string>, next: nat)
    | Unlocking(ok: bool)
    | Ended(ok: bool)
    | Crashed

  datatype Action =
    | Acquire
    | ReadApplied
    | SkipApplied
    | Begin
    | RunSql(ok: bool)
    | Record(ok: bool)
    | Commit(ok: bool)
    | Fail
    | Finish
    | Unlock
    | Crash

  /** `files(p)` is replica p's sorted list; a file self-commits when its own text ends in COMMIT. */
  datatype Config = Config(files: nat -> seq<string>, selfCommits: string -> bool)

  /** `effects` and `recorded` grow in commit order; what an open transaction did is in neither. */
  datatype Db = Db(lock: Option<nat>, effects: seq<string>, recorded: seq<string>, phases: map<nat, Phase>)

  function PhaseOf(s: Db, p: nat): Phase { if p in s.phases then s.phases[p] else Booting }

  function Move(s: Db, p: nat, phase: Phase): Db { s.(phases := s.phases[p := phase]) }

  predicate Holding(phase: Phase)
  {
    phase.Locked? || phase.Scanning? || phase.InTx? || phase.SqlDone? || phase.RowDone? || phase.Unlocking?
  }

  /** One step of replica p; an action the replica cannot take now changes nothing. */
  function Step(c: Config, s: Db, p: nat, a: Action): Db
  {
    var files := c.files(p);
    match (PhaseOf(s, p), a)
    case (Booting, Acquire) =>
      if s.lock.None? then Move(s, p, Locked).(lock := Some(p)) else s
    case (Locked, ReadApplied) => Move(s, p, Scanning(Elements(s.recorded), 0))
    case (Locked, Fail) => Move(s, p, Unlocking(false))
    case (Scanning(applied, i), SkipApplied) =>
      if i < |files| && files[i] in applied then Move(s, p, Scanning(applied, i + 1)) else s
    case (Scanning(applied, i), Begin) =>
      if i < |files| && files[i] !in applied then Move(s, p, InTx(applied, i)) else s
    case (Scanning(applied, i), Finish) =>
      if i >= |files| then Move(s, p, Unlocking(true)) else s
    case (Scanning(_, _), Fail) => Move(s, p, Unlocking(false))
    case (InTx(applied, i), RunSql(ok)) =>
      if i >= |files| then s
      else if !ok then Move(s, p, Unlocking(false))
      else if c.selfCommits(files[i]) then Move(s, p, SqlDone(applied, i)).(effects := s.effects + [files[i]])
      else Move(s, p, SqlDone(applied, i))
    case (SqlDone(applied, i), Record(ok)) =>
      if i >= |files| then s
      else if !ok || files[i] in s.recorded then Move(s, p, Unlocking(false))
      else if c.selfCommits(files[i]) then Move(s, p, RowDone(applied, i)).(recorded := s.recorded + [files[i]])
      else Move(s, p, RowDone(applied, i))
    case (RowDone(applied, i), Commit(ok)) =>
      if i >= |files| then s
      else if !ok then Move(s, p, Unlocking(false))
      else if c.selfCommits(files[i]) then Move(s, p, Scanning(applied, i + 1))
      else Move(s, p, Scanning(applied, i + 1)).(effects := s.effects + [files[i]], recorded := s.recorded + [files[i]])
    case (Unlocking(ok), Unlock) => Move(s, p, Ended(ok)).(lock := None)
    case (Ended(_), _) => s
    case (_, Crash) => Move(s, p, Crashed).(lock := if s.lock == Some(p) then None else s.lock)
    case _ => s
  }

  /** A run: any replicas acting in any order. */
  function Run(c: Config, s: Db, steps: seq<(nat, Action)>): Db
  {
    if steps == [] then s
    else var n := |steps| - 1; Step(c, Run(c, s, steps[..n]), steps[n].0, steps[n].1)
  }

  // ------------------------------------------------------------------ invariant

  /** Effects against records: exact for files run inside the transaction, one-sided for self-committing ones. */
  ghost predicate Consistent(c: Config, s: Db)
  {
    && NoDup(s.recorded)
    && (forall f {:trigger multiset(s.effects)[f]} :: !c.selfCommits(f) ==>
          multiset(s.effects)[f] == if f in s.recorded then 1 else 0)
    && (forall f {:trigger f in s.recorded} :: f in s.recorded ==> f in s.effects)
  }

  /** What the lock holder knows: the set it read, plus the files it has passed, is the set now recorded. */
  ghost predicate SnapshotTrue(c: Config, s: Db, p: nat)
  {
    var files := c.files(p);
    match PhaseOf(s, p)
    case Scanning(applied, i) => i <= |files| && Elements(s.recorded) == applied + Elements(files[..i])
    case InTx(applied, i) =>
      i < |files| && files[i] !in applied && Elements(s.recorded) == applied + Elements(files[..i])
    case SqlDone(applied, i) =>
      && i < |files| && files[i] !in applied && Elements(s.recorded) == applied + Elements(files[..i])
      && (c.selfCommits(files[i]) ==> files[i] in s.effects)
    case RowDone(applied, i) =>
      && i < |files| && files[i] !in applied
      && Elements(s.recorded) == applied + Elements(files[..if c.selfCommits(files[i]) then i + 1 else i])
    case Unlocking(ok) => ok ==> Elements(files) <= Elements(s.recorded)
    case Ended(ok) => ok ==> Elements(files) <= Elements(s.recorded)
    case _ => true
  }

  ghost predicate Inv(c: Config, s: Db)
  {
    && Consistent(c, s)
    && (forall p: nat :: Holding(PhaseOf(s, p)) <==> s.lock == Some(p))
    && (forall p: nat :: SnapshotTrue(c, s, p))
  }

  /** Files of one directory have distinct names. */
  ghost predicate Distinct(c: Config) { forall p: nat :: NoDup(c.files(p)) }

  ghost predicate Init(c: Config, s: Db) { Consistent(c, s) && s.lock.None? && s.phases == map[] }

  lemma NamesAppend(xs: seq<string>, x: string)
    ensures Elements(xs + [x]) == Elements(xs) + {x}
  {}

  lemma NamesNext(xs: seq<string>, i: nat)
    requires i < |xs|
    ensures Elements(xs[..i + 1]) == Elements(xs[..i]) + {xs[i]}
    ensures NoDup(xs) ==> xs[i] !in Elements(xs[..i])
  {
    assert xs[..i + 1] == xs[..i] + [xs[i]];
  }

  /** Committing or recording file f keeps the books consistent. */
  lemma AppendBoth(c: Config, s: Db, t: Db, f: string)
    requires Consistent(c, s) && f !in s.recorded
    requires t.effects == s.effects + [f] && t.recorded == s.recorded + [f]
    requires !c.selfCommits(f)
    ensures Consistent(c, t)
  {
    forall g | !c.selfCommits(g) ensures multiset(t.effects)[g] == if g in t.recorded then 1 else 0 {
      assert multiset(s.effects)[g] == if g in s.recorded then 1 else 0;
    }
  }

  lemma AppendEffect(c: Config, s: Db, t: Db, f: string)
    requires Consistent(c, s) && c.selfCommits(f)
    requires t.effects == s.effects + [f] && t.recorded == s.recorded
    ensures Consistent(c, t)
  {
    forall g | !c.selfCommits(g) ensures multiset(t.effects)[g] == if g in t.recorded then 1 else 0 {
      assert multiset(s.effects)[g] == if g in s.recorded then 1 else 0;
    }
  }

  lemma AppendRecord(c: Config, s: Db, t: Db, f: string)
    requires Consistent(c, s) && c.selfCommits(f) && f !in s.recorded && f in s.effects
    requires t.effects == s.effects && t.recorded == s.recorded + [f]
    ensures Consistent(c, t)
  {}

  lemma StepConsistent(c: Config, s: Db, p: nat, a: Action)
    requires Inv(c, s) && Distinct(c)
    ensures Consistent(c, Step(c, s, p, a))
    ensures s.recorded <= Step(c, s, p, a).recorded
    ensures Step(c, s, p, a).recorded == s.recorded || s.lock == Some(p)
  {
    var t, files := Step(c, s, p, a), c.files(p);
    assert SnapshotTrue(c, s, p);
    if t.recorded != s.recorded || t.effects != s.effects {
      assert Holding(PhaseOf(s, p));
      var i := PhaseOf(s, p).next;
      NamesNext(files, i);
      if PhaseOf(s, p).InTx? { AppendEffect(c, s, t, files[i]); }
      else if PhaseOf(s, p).SqlDone? { AppendRecord(c, s, t, files[i]); }
      else {
        assert files[i] !in Elements(s.recorded);
        AppendBoth(c, s, t, files[i]);
      }
    }
  }

  lemma ScanSnapshot(c: Config, s: Db, p: nat, a: Action)
    requires SnapshotTrue(c, s, p) && !PhaseOf(s, p).SqlDone? && !PhaseOf(s, p).RowDone?
    ensures SnapshotTrue(c, Step(c, s, p, a), p)
  {
    var files := c.files(p);
    if PhaseOf(s, p).Scanning? {
      var i := PhaseOf(s, p).next;
      if i < |files| { NamesNext(files, i); } else { assert files[..i] == files; }
    }
  }

  lemma RecordSnapshot(c: Config, s: Db, p: nat, a: Action)
    requires SnapshotTrue(c, s, p) && (PhaseOf(s, p).SqlDone? || PhaseOf(s, p).RowDone?)
    ensures SnapshotTrue(c, Step(c, s, p, a), p)
  {
    var files, i := c.files(p), PhaseOf(s, p).next;
    NamesNext(files, i);
    NamesAppend(s.recorded, files[i]);
  }

  lemma StepSnapshot(c: Config, s: Db, p: nat, a: Action)
    requires Inv(c, s) && Distinct(c)
    ensures SnapshotTrue(c, Step(c, s, p, a), p)
  {
    assert SnapshotTrue(c, s, p);
    if PhaseOf(s, p).SqlDone? || PhaseOf(s, p).RowDone? {
      RecordSnapshot(c, s, p, a);
    } else {
      ScanSnapshot(c, s, p, a);
    }
  }

  lemma StepOthers(c: Config, s: Db, p: nat, a: Action, q: nat)
    requires Inv(c, s) && Distinct(c) && q != p
    ensures SnapshotTrue(c, Step(c, s, p, a), q)
  {
    var t := Step(c, s, p, a);
    assert PhaseOf(t, q) == PhaseOf(s, q);
    assert SnapshotTrue(c, s, q);
    StepConsistent(c, s, p, a);
    if t.recorded != s.recorded || t.effects != s.effects {
      assert Holding(PhaseOf(s, p));
      assert !Holding(PhaseOf(s, q));
      assert Elements(s.recorded) <= Elements(t.recorded);
    }
  }

  lemma StepKeepsInv(c: Config, s: Db, p: nat, a: Action)
    requires Inv(c, s) && Distinct(c)
    ensures Inv(c, Step(c, s, p, a))
  {
    var t := Step(c, s, p, a);
    StepConsistent(c, s, p, a);
    StepSnapshot(c, s, p, a);
    forall q: nat ensures SnapshotTrue(c, t, q) {
      if q != p { StepOthers(c, s, p, a, q); }
    }
    forall q: nat ensures Holding(PhaseOf(t, q)) <==> t.lock == Some(q) {
      assert Holding(PhaseOf(s, q)) <==> s.lock == Some(q);
      assert Holding(PhaseOf(s, p)) <==> s.lock == Some(p);
      if q != p { assert PhaseOf(t, q) == PhaseOf(s, q); }
    }
  }

  lemma {:induction false} RunKeepsInv(c: Config, s: Db, steps: seq<(nat, Action)>)
    requires Inv(c, s) && Distinct(c)
    ensures Inv(c, Run(c, s, steps))
    ensures s.recorded <= Run(c, s, steps).recorded
  {
    if steps != [] {
      var n := |steps| - 1;
      RunKeepsInv(c, s, steps[..n]);
      StepConsistent(c, Run(c, s, steps[..n]), steps[n].0, steps[n].1);
      StepKeepsInv(c, Run(c, s, steps[..n]), steps[n].0, steps[n].1);
    }
  }

  lemma InitInv(c: Config, s: Db)
    requires Init(c, s)
    ensures Inv(c, s)
  {}

  // ------------------------------------------------------------------ what every run keeps

  /** At most one replica is past the lock at any moment. */
  lemma OneReplicaAtATime(c: Config, s: Db, steps: seq<(nat, Action)>, p: nat, q: nat)
    requires Init(c, s) && Distinct(c)
    ensures var t := Run(c, s, steps);
            Holding(PhaseOf(t, p)) && Holding(PhaseOf(t, q)) ==> p == q
  {
    InitInv(c, s);
    RunKeepsInv(c, s, steps);
    var t := Run(c, s, steps);
    assert Holding(PhaseOf(t, p)) <==> t.lock == Some(p);
    assert Holding(PhaseOf(t, q)) <==> t.lock == Some(q);
  }

  /** A file that does not commit by itself takes effect at most once, and exactly when it is recorded. */
  lemma EffectExactlyWhenRecorded(c: Config, s: Db, steps: seq<(nat, Action)>, f: string)
    requires Init(c, s) && Distinct(c) && !c.selfCommits(f)
    ensures var t := Run(c, s, steps);
            multiset(t.effects)[f] == if f in t.recorded then 1 else 0
    ensures NoDup(Run(c, s, steps).recorded)
  {
    InitInv(c, s);
    RunKeepsInv(c, s, steps);
  }

  /** A self-committing file may take effect more than once, but is never recorded without its effect. */
  lemma RecordedImpliesEffect(c: Config, s: Db, steps: seq<(nat, Action)>, f: string)
    requires Init(c, s) && Distinct(c)
    ensures var t := Run(c, s, steps); f in t.recorded ==> f in t.effects
  {
    InitInv(c, s);
    RunKeepsInv(c, s, steps);
  }

  /** A replica that ended normally leaves its whole list recorded, then and ever after. */
  lemma NormalEndMeansComplete(c: Config, s: Db, steps: seq<(nat, Action)>, p: nat, f: string)
    requires Init(c, s) && Distinct(c) && f in c.files(p)
    requires PhaseOf(Run(c, s, steps), p) == Ended(true)
    ensures f in Run(c, s, steps).recorded
  {
    InitInv(c, s);
    RunKeepsInv(c, s, steps);
    assert SnapshotTrue(c, Run(c, s, steps), p);
    assert f in Elements(c.files(p));
  }

  // ------------------------------------------------------------------ one transaction, over every run

  /** The statement that replica p is at fails, in the phase where it is due. */
  predicate Errs(phase: Phase, a: Action)
  {
    || (phase.InTx? && a == RunSql(false))
    || (phase.SqlDone? && a == Record(false))
    || (phase.RowDone? && a == Commit(false))
  }

  predicate Doomed(phase: Phase) { phase in {Unlocking(false), Ended(false), Crashed} }

  lemma ErrsDooms(c: Config, s: Db, p: nat, a: Action)
    requires SnapshotTrue(c, s, p) && Errs(PhaseOf(s, p), a)
    ensures Doomed(PhaseOf(Step(c, s, p, a), p))
    ensures Step(c, s, p, a).effects == s.effects && Step(c, s, p, a).recorded == s.recorded
  {}

  lemma DoomedStays(c: Config, s: Db, q: nat, a: Action, p: nat)
    requires Doomed(PhaseOf(s, p))
    ensures Doomed(PhaseOf(Step(c, s, q, a), p))
    ensures q == p ==> Step(c, s, q, a).effects == s.effects && Step(c, s, q, a).recorded == s.recorded
  {}

  /**
   Once a file, its record or its commit fails, the replica never ends normally, and neither that step nor any later
   one of its own keeps an effect or a record.
   */
  lemma {:induction false} FailureIsFinal(c: Config, s: Db, steps: seq<(nat, Action)>, k: nat, j: nat)
    requires Init(c, s) && Distinct(c) && k <= j < |steps|
    requires Errs(PhaseOf(Run(c, s, steps[..k]), steps[k].0), steps[k].1)
    ensures PhaseOf(Run(c, s, steps[..j + 1]), steps[k].0) in {Unlocking(false), Ended(false), Crashed}
    ensures steps[j].0 == steps[k].0 ==>
        && Run(c, s, steps[..j + 1]).effects == Run(c, s, steps[..j]).effects
        && Run(c, s, steps[..j + 1]).recorded == Run(c, s, steps[..j]).recorded
    decreases j
  {
    hide Step;
    var now := Run(c, s, steps[..j]);
    assert steps[..j + 1][..j] == steps[..j];
    if j == k {
      InitInv(c, s);
      RunKeepsInv(c, s, steps[..k]);
      assert SnapshotTrue(c, now, steps[k].0);
      ErrsDooms(c, now, steps[k].0, steps[k].1);
    } else {
      FailureIsFinal(c, s, steps, k, j - 1);
      DoomedStays(c, now, steps[j].0, steps[j].1, steps[k].0);
    }
  }

  /** At step j of the run replica p, in its transaction for file f, got this answer. */
  ghost predicate Took(c: Config, s: Db, steps: seq<(nat, Action)>, j: nat, p: nat, f: string, a: Action)
  {
    && j < |steps| && steps[j] == (p, a)
    && var phase := PhaseOf(Run(c, s, steps[..j]), p);
    && (match a
        case RunSql(_) => phase.InTx?
        case Record(_) => phase.SqlDone?
        case Commit(_) => phase.RowDone?
        case _ => false)
    && phase.next < |c.files(p)| && c.files(p)[phase.next] == f
  }

  lemma TookBefore(
    c: Config, s: Db, steps: seq<(nat, Action)>, n: nat, j: nat, p: nat, f: string, a: Action)
    requires n <= |steps| && Took(c, s, steps[..n], j, p, f, a)
    ensures Took(c, s, steps, j, p, f, a)
  {
    assert steps[..n][..j] == steps[..j];
  }

  lemma IntoSqlDone(c: Config, s: Db, q: nat, a: Action, p: nat)
    requires PhaseOf(Step(c, s, q, a), p).SqlDone? && PhaseOf(Step(c, s, q, a), p) != PhaseOf(s, p)
    ensures q == p && a == RunSql(true) && PhaseOf(s, p).InTx?
    ensures PhaseOf(Step(c, s, q, a), p).next == PhaseOf(s, p).next < |c.files(p)|
  {}

  lemma IntoRowDone(c: Config, s: Db, q: nat, a: Action, p: nat)
    requires PhaseOf(Step(c, s, q, a), p).RowDone? && PhaseOf(Step(c, s, q, a), p) != PhaseOf(s, p)
    ensures q == p && a == Record(true) && PhaseOf(s, p).SqlDone?
    ensures PhaseOf(Step(c, s, q, a), p).next == PhaseOf(s, p).next < |c.files(p)|
  {}

  lemma IntoRecorded(c: Config, s: Db, q: nat, a: Action, f: string)
    requires f !in s.recorded && f in Step(c, s, q, a).recorded
    ensures (PhaseOf(s, q).SqlDone? && a == Record(true) && c.selfCommits(f)) ||
            (PhaseOf(s, q).RowDone? && a == Commit(true))
    ensures PhaseOf(s, q).next < |c.files(q)| && c.files(q)[PhaseOf(s, q).next] == f
  {}

  /** A replica about to record a file has run it without an error. */
  lemma {:induction false} SqlWasRun(c: Config, s: Db, steps: seq<(nat, Action)>, p: nat) returns (sql: nat)
    requires Init(c, s) && PhaseOf(Run(c, s, steps), p).SqlDone?
    ensures var i := PhaseOf(Run(c, s, steps), p).next;
            i < |c.files(p)| && Took(c, s, steps, sql, p, c.files(p)[i], RunSql(true))
  {
    hide Step;
    var n := |steps| - 1;
    var before := Run(c, s, steps[..n]);
    if PhaseOf(before, p) == PhaseOf(Run(c, s, steps), p) {
      sql := SqlWasRun(c, s, steps[..n], p);
      TookBefore(c, s, steps, n, sql, p, c.files(p)[PhaseOf(before, p).next], RunSql(true));
    } else {
      IntoSqlDone(c, before, steps[n].0, steps[n].1, p);
      sql := n;
    }
  }

  /** A replica about to commit a file has run it and then recorded it, both without an error. */
  lemma {:induction false} RowWasRecorded(c: Config, s: Db, steps: seq<(nat, Action)>, p: nat)
    returns (sql: nat, row: nat)
    requires Init(c, s) && PhaseOf(Run(c, s, steps), p).RowDone?
    ensures var i := PhaseOf(Run(c, s, steps), p).next;
            && i < |c.files(p)| && sql < row
            && Took(c, s, steps, sql, p, c.files(p)[i], RunSql(true))
            && Took(c, s, steps, row, p, c.files(p)[i], Record(true))
  {
    hide Step;
    var n := |steps| - 1;
    var before := Run(c, s, steps[..n]);
    if PhaseOf(before, p) == PhaseOf(Run(c, s, steps), p) {
      sql, row := RowWasRecorded(c, s, steps[..n], p);
      TookBefore(c, s, steps, n, row, p, c.files(p)[PhaseOf(before, p).next], Record(true));
    } else {
      IntoRowDone(c, before, steps[n].0, steps[n].1, p);
      sql := SqlWasRun(c, s, steps[..n], p);
      row := n;
    }
    TookBefore(c, s, steps, n, sql, p, c.files(p)[PhaseOf(before, p).next], RunSql(true));
  }

  /**
   A file enters the record only through one replica that ran it, recorded it and, unless the file commits by itself,
   committed, each without an error.
   */
  lemma {:induction false} RecordedByItsTransaction(c: Config, s: Db, steps: seq<(nat, Action)>, f: string)
    returns (p: nat, sql: nat, row: nat, commit: nat)
    requires Init(c, s) && f !in s.recorded && f in Run(c, s, steps).recorded
    ensures sql < row && Took(c, s, steps, sql, p, f, RunSql(true)) && Took(c, s, steps, row, p, f, Record(true))
    ensures c.selfCommits(f) || (row < commit && Took(c, s, steps, commit, p, f, Commit(true)))
  {
    hide Step;
    var n := |steps| - 1;
    var before := Run(c, s, steps[..n]);
    p := steps[n].0;
    commit := n;
    if f in before.recorded {
      p, sql, row, commit := RecordedByItsTransaction(c, s, steps[..n], f);
      TookBefore(c, s, steps, n, row, p, f, Record(true));
      if !c.selfCommits(f) { TookBefore(c, s, steps, n, commit, p, f, Commit(true)); }
    } else if PhaseOf(before, p).SqlDone? {
      IntoRecorded(c, before, p, steps[n].1, f);
      sql := SqlWasRun(c, s, steps[..n], p);
      row := n;
    } else {
      IntoRecorded(c, before, p, steps[n].1, f);
      sql, row := RowWasRecorded(c, s, steps[..n], p);
      TookBefore(c, s, steps, n, row, p, f, Record(true));
    }
    TookBefore(c, s, steps, n, sql, p, f, RunSql(true));
  }

  // ------------------------------------------------------------------ order

  lemma MemberOfPrefix(files: seq<string>, prefix: seq<string>, j: nat)
    requires NoDup(files) && prefix <= files && j < |files|
    ensures files[j] in Elements(prefix) <==> j < |prefix|
  {
    assert j < |prefix| ==> prefix[j] == files[j];
  }

  lemma NextIsFirstMissing(files: seq<string>, recorded: seq<string>, applied: set<string>, i: nat)
    requires NoDup(files) && recorded <= files && i < |files| && files[i] !in applied
    requires Elements(recorded) == applied + Elements(files[..i])
    ensures recorded == files[..i]
  {
    MemberOfPrefix(files, recorded, i);
    MemberOfPrefix(files, files[..i], i);
    if |recorded| < |files| {
      MemberOfPrefix(files, recorded, |recorded|);
      MemberOfPrefix(files, files[..i], |recorded|);
    }
  }

  lemma StepKeepsPrefix(c: Config, s: Db, p: nat, a: Action, files: seq<string>)
    requires SnapshotTrue(c, s, p) && c.files(p) == files && NoDup(files) && s.recorded <= files
    ensures Step(c, s, p, a).recorded <= files
  {
    if Step(c, s, p, a).recorded != s.recorded {
      var i := PhaseOf(s, p).next;
      NextIsFirstMissing(files, s.recorded, PhaseOf(s, p).applied, i);
      assert Step(c, s, p, a).recorded == files[..i] + [files[i]] == files[..i + 1];
    }
  }

  /** With one common list the recorded names always form a prefix of it, in its order. */
  lemma {:induction false} RecordedIsPrefix(c: Config, s: Db, steps: seq<(nat, Action)>, files: seq<string>)
    requires Init(c, s) && Distinct(c) && (forall p: nat :: c.files(p) == files)
    requires s.recorded <= files
    ensures Run(c, s, steps).recorded <= files
  {
    if steps != [] {
      var n := |steps| - 1;
      RecordedIsPrefix(c, s, steps[..n], files);
      InitInv(c, s);
      RunKeepsInv(c, s, steps[..n]);
      assert SnapshotTrue(c, Run(c, s, steps[..n]), steps[n].0);
      assert c.files(steps[n].0) == files;
      StepKeepsPrefix(c, Run(c, s, steps[..n]), steps[n].0, steps[n].1, files);
    }
  }

  // ------------------------------------------------------------------ when at-most-once holds

  predicate SomeFileSelfCommits(c: Config, files: seq<string>)
  {
    exists i :: 0 <= i < |files| && c.selfCommits(files[i])
  }

  const EmptyDb := Db(None, [], [], map[])

  ghost predicate Reaches(c: Config, s: Db, t: Db) { exists steps :: Run(c, s, steps) == t }

  lemma ReachStep(c: Config, s: Db, t: Db, p: nat, a: Action)
    requires Reaches(c, s, t)
    ensures Reaches(c, s, Step(c, t, p, a))
  {
    var steps :| Run(c, s, steps) == t;
    assert (steps + [(p, a)])[..|steps|] == steps;
    assert Run(c, s, steps + [(p, a)]) == Step(c, t, p, a);
  }

  lemma StepRecordsEffects(c: Config, s: Db, p: nat, a: Action)
    requires !SomeFileSelfCommits(c, c.files(p)) && s.effects == s.recorded
    ensures Step(c, s, p, a).effects == Step(c, s, p, a).recorded
  {}

  /** With no self-committing file, effects and records are one and the same sequence. */
  lemma {:induction false} EffectsAreRecords(c: Config, s: Db, steps: seq<(nat, Action)>, files: seq<string>)
    requires (forall p: nat :: c.files(p) == files) && !SomeFileSelfCommits(c, files)
    requires s.effects == s.recorded
    ensures Run(c, s, steps).effects == Run(c, s, steps).recorded
  {
    if steps != [] {
      var n := |steps| - 1;
      EffectsAreRecords(c, s, steps[..n], files);
      assert c.files(steps[n].0) == files;
      StepRecordsEffects(c, Run(c, s, steps[..n]), steps[n].0, steps[n].1);
    }
  }

  /** The state after one file went through its transaction without an error. */
  function WithFile(s: Db, p: nat, applied: set<string>, i: nat, f: string): Db
  {
    Move(s, p, Scanning(applied, i + 1)).(effects := s.effects + [f], recorded := s.recorded + [f])
  }

  lemma BeginStep(c: Config, s: Db, p: nat, applied: set<string>, i: nat)
    requires PhaseOf(s, p) == Scanning(applied, i) && i < |c.files(p)| && c.files(p)[i] !in applied
    ensures Step(c, s, p, Begin) == Move(s, p, InTx(applied, i))
  {}

  lemma SqlStep(c: Config, s: Db, p: nat, applied: set<string>, i: nat, ok: bool)
    requires PhaseOf(s, p) == InTx(applied, i) && i < |c.files(p)|
    ensures Step(c, s, p, RunSql(ok)) ==
              if !ok then Move(s, p, Unlocking(false))
              else Move(s, p, SqlDone(applied, i)).(
                effects := s.effects + if c.selfCommits(c.files(p)[i]) then [c.files(p)[i]] else [])
  {}

  lemma RecordStep(c: Config, s: Db, p: nat, applied: set<string>, i: nat, ok: bool)
    requires PhaseOf(s, p) == SqlDone(applied, i) && i < |c.files(p)| && c.files(p)[i] !in s.recorded
    ensures Step(c, s, p, Record(ok)) ==
              if !ok then Move(s, p, Unlocking(false))
              else Move(s, p, RowDone(applied, i)).(
                recorded := s.recorded + if c.selfCommits(c.files(p)[i]) then [c.files(p)[i]] else [])
  {}

  lemma CommitStep(c: Config, s: Db, p: nat, applied: set<string>, i: nat, ok: bool)
    requires PhaseOf(s, p) == RowDone(applied, i) && i < |c.files(p)|
    ensures var kept := if c.selfCommits(c.files(p)[i]) then [] else [c.files(p)[i]];
            Step(c, s, p, Commit(ok)) ==
              if !ok then Move(s, p, Unlocking(false))
              else Move(s, p, Scanning(applied, i + 1)).(effects := s.effects + kept, recorded := s.recorded + kept)
  {}

  lemma FourStepsApplyFile(c: Config, s: Db, p: nat, applied: set<string>, i: nat)
    requires PhaseOf(s, p) == Scanning(applied, i) && i < |c.files(p)|
    requires c.files(p)[i] !in applied && c.files(p)[i] !in s.recorded
    ensures Step(c, Step(c, Step(c, Step(c, s, p, Begin), p, RunSql(true)), p, Record(true)), p, Commit(true))
            == WithFile(s, p, applied, i, c.files(p)[i])
  {
    hide Step;
    BeginStep(c, s, p, applied, i);
    var s1 := Step(c, s, p, Begin);
    SqlStep(c, s1, p, applied, i, true);
    var s2 := Step(c, s1, p, RunSql(true));
    RecordStep(c, s2, p, applied, i, true);
    var s3 := Step(c, s2, p, Record(true));
    CommitStep(c, s3, p, applied, i, true);
  }

  lemma ReachFile(c: Config, start: Db, s: Db, p: nat, applied: set<string>, i: nat)
    requires Reaches(c, start, s) && PhaseOf(s, p) == Scanning(applied, i) && i < |c.files(p)|
    requires c.files(p)[i] !in applied && c.files(p)[i] !in s.recorded
    ensures Reaches(c, start, WithFile(s, p, applied, i, c.files(p)[i]))
  {
    FourStepsApplyFile(c, s, p, applied, i);
    var s1 := Step(c, s, p, Begin);
    ReachStep(c, start, s, p, Begin);
    var s2 := Step(c, s1, p, RunSql(true));
    ReachStep(c, start, s1, p, RunSql(true));
    ReachStep(c, start, s2, p, Record(true));
    ReachStep(c, start, Step(c, s2, p, Record(true)), p, Commit(true));
  }

  /** Replica 0 alone, having applied the first i files of the list. */
  function AfterFirst(files: seq<string>, i: nat): Db
    requires i <= |files|
  {
    Db(Some(0), files[..i], files[..i], map[0 := Scanning({}, i)])
  }

  lemma {:induction false} AppliesFirst(c: Config, files: seq<string>, i: nat)
    requires (forall p: nat :: c.files(p) == files) && NoDup(files) && i <= |files|
    ensures Reaches(c, EmptyDb, AfterFirst(files, i))
  {
    if i == 0 {
      assert Run(c, EmptyDb, []) == EmptyDb;
      ReachStep(c, EmptyDb, EmptyDb, 0, Acquire);
      var s := Db(Some(0), [], [], map[0 := Locked]);
      assert s == Step(c, EmptyDb, 0, Acquire);
      assert Elements<string>([]) == {};
      ReachStep(c, EmptyDb, s, 0, ReadApplied);
      assert Step(c, s, 0, ReadApplied) == AfterFirst(files, 0);
    } else {
      AppliesFirst(c, files, i - 1);
      NamesNext(files, i - 1);
      ReachFile(c, EmptyDb, AfterFirst(files, i - 1), 0, {}, i - 1);
      assert files[..i] == files[..i - 1] + [files[i - 1]];
    }
  }

  /** Replica 1 passes over the files it found applied. */
  lemma {:induction false} SkipsApplied(c: Config, s: Db, files: seq<string>, i: nat, j: nat)
    requires (forall p: nat :: c.files(p) == files) && j <= i <= |files|
    requires PhaseOf(s, 1) == Scanning(Elements(files[..i]), 0) && Reaches(c, EmptyDb, s)
    ensures Reaches(c, EmptyDb, Move(s, 1, Scanning(Elements(files[..i]), j)))
  {
    if j == 0 {
      assert Move(s, 1, PhaseOf(s, 1)) == s by { assert 1 in s.phases; }
    } else {
      SkipsApplied(c, s, files, i, j - 1);
      var m := Move(s, 1, Scanning(Elements(files[..i]), j - 1));
      assert files[j - 1] in files[..i] by { assert files[..i][j - 1] == files[j - 1]; }
      ReachStep(c, EmptyDb, m, 1, SkipApplied);
      assert Step(c, m, 1, SkipApplied) == Move(s, 1, Scanning(Elements(files[..i]), j));
    }
  }

  /** Replica 0, at file i, gets as far as the file's own commit and crashes. */
  lemma CrashAfterSelfCommit(c: Config, files: seq<string>, i: nat)
    requires (forall p: nat :: c.files(p) == files) && NoDup(files)
    requires i < |files| && c.selfCommits(files[i])
    ensures Reaches(c, EmptyDb, Db(None, files[..i] + [files[i]], files[..i], map[0 := Crashed]))
  {
    AppliesFirst(c, files, i);
    var t := AfterFirst(files, i);
    ReachStep(c, EmptyDb, t, 0, Begin);
    ReachStep(c, EmptyDb, Step(c, t, 0, Begin), 0, RunSql(true));
    var committed := Db(Some(0), files[..i] + [files[i]], files[..i], map[0 := SqlDone({}, i)]);
    assert Reaches(c, EmptyDb, committed);
    ReachStep(c, EmptyDb, committed, 0, Crash);
  }

  /** A crash between a self-committed effect and its record makes the next replica apply the file again. */
  lemma SelfCommitAppliesTwice(c: Config, files: seq<string>, i: nat) returns (steps: seq<(nat, Action)>)
    requires (forall p: nat :: c.files(p) == files) && NoDup(files)
    requires i < |files| && c.selfCommits(files[i])
    ensures multiset(Run(c, EmptyDb, steps).effects)[files[i]] >= 2
  {
    CrashAfterSelfCommit(c, files, i);
    var crashed := Db(None, files[..i] + [files[i]], files[..i], map[0 := Crashed]);
    ReachStep(c, EmptyDb, crashed, 1, Acquire);
    var locked := Db(Some(1), files[..i] + [files[i]], files[..i], map[0 := Crashed, 1 := Locked]);
    assert Reaches(c, EmptyDb, locked);
    ReachStep(c, EmptyDb, locked, 1, ReadApplied);
    RerunRepeatsEffect(c, files, i, Step(c, locked, 1, ReadApplied));
    steps :| multiset(Run(c, EmptyDb, steps).effects)[files[i]] >= 2;
  }

  lemma RerunRepeatsEffect(c: Config, files: seq<string>, i: nat, s: Db)
    requires (forall p: nat :: c.files(p) == files) && NoDup(files)
    requires i < |files| && c.selfCommits(files[i])
    requires PhaseOf(s, 1) == Scanning(Elements(files[..i]), 0) && s.effects == files[..i] + [files[i]]
    requires Reaches(c, EmptyDb, s)
    ensures exists steps :: multiset(Run(c, EmptyDb, steps).effects)[files[i]] >= 2
  {
    NamesNext(files, i);
    SkipsApplied(c, s, files, i, i);
    var t := Move(s, 1, Scanning(Elements(files[..i]), i));
    ReachStep(c, EmptyDb, t, 1, Begin);
    var u := Step(c, t, 1, Begin);
    ReachStep(c, EmptyDb, u, 1, RunSql(true));
    var v := Step(c, u, 1, RunSql(true));
    assert v.effects == files[..i] + [files[i]] + [files[i]];
    var steps :| Run(c, EmptyDb, steps) == v;
    assert multiset(v.effects)[files[i]] >= 2;
  }

  lemma {:induction false} AtMostOneOfEach(xs: seq<string>, x: string)
    requires NoDup(xs)
    ensures multiset(xs)[x] <= 1
  {
    if xs != [] {
      var n := |xs| - 1;
      AtMostOneOfEach(xs[..n], x);
      assert xs == xs[..n] + [xs[n]];
      assert xs[n] !in xs[..n];
    }
  }

  /** Every interleaving applies every file at most once exactly when no file of the list commits by itself. */
  lemma AtMostOnceIffNoSelfCommit(c: Config, files: seq<string>)
    requires (forall p: nat :: c.files(p) == files) && NoDup(files)
    ensures (forall steps :: NoDup(Run(c, EmptyDb, steps).effects)) <==> !SomeFileSelfCommits(c, files)
  {
    if SomeFileSelfCommits(c, files) {
      var i :| 0 <= i < |files| && c.selfCommits(files[i]);
      var steps := SelfCommitAppliesTwice(c, files, i);
      if NoDup(Run(c, EmptyDb, steps).effects) { AtMostOneOfEach(Run(c, EmptyDb, steps).effects, files[i]); }
    } else {
      forall steps ensures NoDup(Run(c, EmptyDb, steps).effects) {
        EffectsAreRecords(c, EmptyDb, steps, files);
        InitInv(c, EmptyDb);
        RunKeepsInv(c, EmptyDb, steps);
      }
    }
  }

  // ------------------------------------------------------------------ nobody is ever stuck for good

  lemma ReachableInv(c: Config, s: Db, t: Db)
    requires Inv(c, s) && Distinct(c) && Reaches(c, s, t)
    ensures Inv(c, t)
  {
    var steps :| Run(c, s, steps) == t;
    RunKeepsInv(c, s, steps);
  }

  /** A replica at file i, undisturbed, passes one more file. */
  lemma OneFileOn(c: Config, start: Db, s: Db, p: nat, applied: set<string>, i: nat) returns (t: Db)
    requires Inv(c, s) && NoDup(c.files(p)) && Reaches(c, start, s)
    requires PhaseOf(s, p) == Scanning(applied, i) && i < |c.files(p)|
    ensures Reaches(c, start, t) && PhaseOf(t, p) == Scanning(applied, i + 1)
  {
    if c.files(p)[i] in applied {
      ReachStep(c, start, s, p, SkipApplied);
      t := Step(c, s, p, SkipApplied);
    } else {
      assert SnapshotTrue(c, s, p) && NoDup(s.recorded);
      NextIsNew(c.files(p), s.recorded, applied, i);
      ReachFile(c, start, s, p, applied, i);
      t := WithFile(s, p, applied, i, c.files(p)[i]);
    }
  }

  lemma NextIsNew(files: seq<string>, recorded: seq<string>, applied: set<string>, i: nat)
    requires NoDup(files) && i < |files| && files[i] !in applied
    requires Elements(recorded) == applied + Elements(files[..i])
    ensures files[i] !in recorded
  {
    NamesNext(files, i);
    assert files[i] !in Elements(recorded);
  }

  lemma {:induction false} RestOfTheFiles(c: Config, start: Db, s: Db, p: nat, applied: set<string>, i: nat)
    returns (t: Db)
    requires Inv(c, start) && Distinct(c) && Reaches(c, start, s)
    requires PhaseOf(s, p) == Scanning(applied, i) && i <= |c.files(p)|
    ensures Reaches(c, start, t) && PhaseOf(t, p) == Scanning(applied, |c.files(p)|)
    decreases |c.files(p)| - i
  {
    if i == |c.files(p)| { return s; }
    ReachableInv(c, start, s);
    assert NoDup(c.files(p));
    var u := OneFileOn(c, start, s, p, applied, i);
    t := RestOfTheFiles(c, start, u, p, applied, i + 1);
  }

  lemma OpenSteps(c: Config, s: Db, p: nat)
    requires s.lock.None? && PhaseOf(s, p) == Booting
    ensures Step(c, s, p, Acquire) == Move(s, p, Locked).(lock := Some(p))
    ensures Step(c, Step(c, s, p, Acquire), p, ReadApplied)
            == Move(s, p, Scanning(Elements(s.recorded), 0)).(lock := Some(p))
  {}

  lemma FinishStep(c: Config, s: Db, p: nat, applied: set<string>)
    requires PhaseOf(s, p) == Scanning(applied, |c.files(p)|)
    ensures Step(c, s, p, Finish) == Move(s, p, Unlocking(true))
  {}

  lemma UnlockStep(c: Config, s: Db, p: nat, ok: bool)
    requires PhaseOf(s, p) == Unlocking(ok)
    ensures Step(c, s, p, Unlock) == Move(s, p, Ended(ok)).(lock := None)
  {}

  /** With the lock free, a new replica can run its whole pass. */
  lemma WholePass(c: Config, start: Db, s: Db, p: nat) returns (t: Db)
    requires Inv(c, start) && Distinct(c) && Reaches(c, start, s) && s.lock.None? && p !in s.phases
    ensures Reaches(c, start, t) && PhaseOf(t, p) == Ended(true)
  {
    hide Step;
    OpenSteps(c, s, p);
    var locked := Step(c, s, p, Acquire);
    ReachStep(c, start, s, p, Acquire);
    ReachStep(c, start, locked, p, ReadApplied);
    var done := RestOfTheFiles(c, start, Step(c, locked, p, ReadApplied), p, Elements(s.recorded), 0);
    FinishStep(c, done, p, Elements(s.recorded));
    ReachStep(c, start, done, p, Finish);
    var finished := Step(c, done, p, Finish);
    UnlockStep(c, finished, p, true);
    ReachStep(c, start, finished, p, Unlock);
    t := Step(c, finished, p, Unlock);
  }

  /**
   From every reachable state, whoever crashed or failed before and whoever holds the lock now, some continuation ends
   with a new replica's whole list recorded.
   */
  lemma CanAlwaysComplete(c: Config, s: Db, steps: seq<(nat, Action)>) returns (p: nat, t: Db)
    requires Init(c, s) && Distinct(c)
    ensures p !in Run(c, s, steps).phases && Reaches(c, Run(c, s, steps), t)
    ensures PhaseOf(t, p) == Ended(true) && forall f :: f in c.files(p) ==> f in t.recorded
  {
    InitInv(c, s);
    RunKeepsInv(c, s, steps);
    var now := Run(c, s, steps);
    p := FreshNumber(now.phases.Keys);
    assert Run(c, now, []) == now;
    var free := now;
    if now.lock.Some? {
      ReachStep(c, now, now, now.lock.value, Crash);
      free := Step(c, now, now.lock.value, Crash);
      assert Holding(PhaseOf(now, now.lock.value));
    }
    t := WholePass(c, now, free, p);
    ReachableInv(c, now, t);
    assert SnapshotTrue(c, t, p);
    forall f | f in c.files(p) ensures f in t.recorded {
      assert f in Elements(c.files(p));
    }
  }

  // ------------------------------------------------------------------ one pass, as the script runs it

  /** Where the transaction of a file fails, if it does. */
  datatype Failing = Nowhere | AtSql | AtRecord | AtCommit

  /** What one pass adds to the record and to the effects, and whether it reaches the end of the list. */
  datatype Passed = Passed(recorded: seq<string>, effects: seq<string>, ok: bool)

  /** The record left by a file: a file that commits by itself is recorded outside any transaction. */
  predicate LeavesRecord(c: Config, f: string, at: Failing)
  {
    at.Nowhere? || (c.selfCommits(f) && at.AtCommit?)
  }

  predicate LeavesEffect(c: Config, f: string, at: Failing)
  {
    at.Nowhere? || (c.selfCommits(f) && !at.AtSql?)
  }

  function Pass(c: Config, files: seq<string>, applied: set<string>, fails: string -> Failing): Passed
  {
    if files == [] then Passed([], [], true)
    else if files[0] in applied then Pass(c, files[1..], applied, fails)
    else
      var f, at := files[0], fails(files[0]);
      var rest := if at.Nowhere? then Pass(c, files[1..], applied, fails) else Passed([], [], false);
      Passed(
        (if LeavesRecord(c, f, at) then [f] else []) + rest.recorded,
        (if LeavesEffect(c, f, at) then [f] else []) + rest.effects,
        rest.ok)
  }

  lemma {:induction false} PassSucceeds(c: Config, files: seq<string>, applied: set<string>, fails: string -> Failing)
    ensures Pass(c, files, applied, fails).ok <==>
        forall i :: 0 <= i < |files| && files[i] !in applied ==> fails(files[i]) == Nowhere
    ensures Pass(c, files, applied, fails).ok ==>
        Elements(Pass(c, files, applied, fails).recorded) + applied == Elements(files) + applied
  {
    if files != [] {
      PassSucceeds(c, files[1..], applied, fails);
      NamesCons(files[0], files[1..]);
      NamesCons(files[0], Pass(c, files[1..], applied, fails).recorded);
      assert files == [files[0]] + files[1..];
      forall i | 0 < i < |files| ensures files[i] == files[1..][i - 1] {}
      assert (forall i :: 0 <= i < |files| && files[i] !in applied ==> fails(files[i]) == Nowhere) <==>
          (files[0] in applied || fails(files[0]) == Nowhere) &&
          forall i :: 0 <= i < |files[1..]| && files[1..][i] !in applied ==> fails(files[1..][i]) == Nowhere;
    }
  }

  /** The pass comes to file i and the file is new to it. */
  ghost predicate Comes(files: seq<string>, applied: set<string>, fails: string -> Failing, i: nat)
  {
    && i < |files| && files[i] !in applied
    && forall k :: 0 <= k < i ==> files[k] in applied || fails(files[k]) == Nowhere
  }

  lemma ComesNext(files: seq<string>, applied: set<string>, fails: string -> Failing, i: nat)
    requires files != [] && (files[0] in applied || fails(files[0]) == Nowhere)
    ensures Comes(files, applied, fails, i + 1) <==> Comes(files[1..], applied, fails, i)
  {
    if Comes(files, applied, fails, i + 1) {
      forall k | 0 <= k < i ensures files[1..][k] in applied || fails(files[1..][k]) == Nowhere {
        assert files[1..][k] == files[k + 1];
      }
    }
    if Comes(files[1..], applied, fails, i) {
      forall k | 0 <= k < i + 1 ensures files[k] in applied || fails(files[k]) == Nowhere {
        if k > 0 { assert files[1..][k - 1] == files[k]; }
      }
    }
  }

  /**
   A pass records a file exactly if it comes to it and nothing fails there, or only the commit of a file that has
   committed by itself; it leaves the effect also if only the record of such a file fails.
   */
  lemma {:induction false} PassLeavesIff(
    c: Config, files: seq<string>, applied: set<string>, fails: string -> Failing, f: string)
    ensures f in Pass(c, files, applied, fails).recorded <==>
        exists i: nat :: Comes(files, applied, fails, i) && files[i] == f &&
          (fails(f) == Nowhere || (c.selfCommits(f) && fails(f) == AtCommit))
    ensures f in Pass(c, files, applied, fails).effects <==>
        exists i: nat :: Comes(files, applied, fails, i) && files[i] == f &&
          (fails(f) == Nowhere || (c.selfCommits(f) && fails(f) in {AtRecord, AtCommit}))
  {
    if files == [] { return; }
    var goesOn := files[0] in applied || fails(files[0]) == Nowhere;
    if goesOn { PassLeavesIff(c, files[1..], applied, fails, f); }
    forall i: nat | Comes(files, applied, fails, i) && i > 0
      ensures goesOn && Comes(files[1..], applied, fails, i - 1) && files[1..][i - 1] == files[i]
    {
      assert files[0] in applied || fails(files[0]) == Nowhere;
      ComesNext(files, applied, fails, i - 1);
    }
    forall i: nat | goesOn && Comes(files[1..], applied, fails, i)
      ensures Comes(files, applied, fails, i + 1) && files[i + 1] == files[1..][i]
    {
      ComesNext(files, applied, fails, i);
    }
    assert Comes(files, applied, fails, 0) <==> files[0] !in applied;
  }

  /** A pass over the files that starts with these records and effects in the books. */
  function PassFrom(
    c: Config, books: Passed, files: seq<string>, applied: set<string>, fails: string -> Failing): Passed
  {
    var pass := Pass(c, files, applied, fails);
    Passed(books.recorded + pass.recorded, books.effects + pass.effects, pass.ok)
  }

  function Books(s: Db, ok: bool): Passed { Passed(s.recorded, s.effects, ok) }

  lemma PassNext(c: Config, s: Db, files: seq<string>, applied: set<string>, fails: string -> Failing, i: nat, t: Db)
    requires i < |files|
    requires t.recorded == s.recorded +
        if files[i] !in applied && LeavesRecord(c, files[i], fails(files[i])) then [files[i]] else []
    requires t.effects == s.effects +
        if files[i] !in applied && LeavesEffect(c, files[i], fails(files[i])) then [files[i]] else []
    ensures PassFrom(c, Books(s, true), files[i..], applied, fails) ==
              if files[i] in applied || fails(files[i]).Nowhere? then
                PassFrom(c, Books(t, true), files[i + 1..], applied, fails)
              else Books(t, false)
  {
    assert files[i..][0] == files[i] && files[i..][1..] == files[i + 1..];
    var next := Pass(c, files[i + 1..], applied, fails);
    assert s.recorded + ([files[i]] + next.recorded) == s.recorded + [files[i]] + next.recorded;
    assert s.effects + ([files[i]] + next.effects) == s.effects + [files[i]] + next.effects;
  }

  lemma NamesCons(x: string, xs: seq<string>)
    ensures Elements([x] + xs) == {x} + Elements(xs)
  {}

  class Runner {
    var db: Db

    constructor (db: Db)
      ensures this.db == db
    {
      this.db := db;
    }

    /** One action of replica p on the database. */
    method Do(c: Config, ghost start: Db, p: nat, a: Action)
      requires Reaches(c, start, db)
      modifies this
      ensures db == Step(c, old(db), p, a) && Reaches(c, start, db)
    {
      ReachStep(c, start, db, p, a);
      db := Step(c, db, p, a);
    }

    /**
     BEGIN, the file, its record and COMMIT; an error rolls back and leaves the loop. What a file committed by itself
     stays, and so does its record.
     */
    method Apply(c: Config, ghost start: Db, p: nat, applied: set<string>, i: nat, at: Failing) returns (ok: bool)
      requires Reaches(c, start, db) && PhaseOf(db, p) == Scanning(applied, i) && i < |c.files(p)|
      requires c.files(p)[i] !in applied && c.files(p)[i] !in db.recorded
      modifies this
      ensures Reaches(c, start, db) && ok == (at == Nowhere)
      ensures db.phases == old(db).phases[p := if ok then Scanning(applied, i + 1) else Unlocking(false)]
      ensures db.lock == old(db).lock
      ensures var f := c.files(p)[i];
              && db.recorded == old(db).recorded +
                   (if at == Nowhere || (c.selfCommits(f) && at == AtCommit) then [f] else [])
              && db.effects == old(db).effects +
                   (if at == Nowhere || (c.selfCommits(f) && at in {AtRecord, AtCommit}) then [f] else [])
    {
      hide Step, Reaches;
      BeginStep(c, db, p, applied, i);
      Do(c, start, p, Begin);
      SqlStep(c, db, p, applied, i, !at.AtSql?);
      Do(c, start, p, RunSql(!at.AtSql?));
      if !at.AtSql? {
        RecordStep(c, db, p, applied, i, !at.AtRecord?);
        Do(c, start, p, Record(!at.AtRecord?));
        if !at.AtRecord? {
          CommitStep(c, db, p, applied, i, !at.AtCommit?);
          Do(c, start, p, Commit(!at.AtCommit?));
        }
      }
      ok := at.Nowhere?;
    }

    /** Takes the lock, then reads the applied set: the set is as fresh as the lock. */
    method Open(c: Config, ghost start: Db, p: nat) returns (applied: set<string>)
      requires Reaches(c, start, db) && db.lock.None? && PhaseOf(db, p) == Booting
      modifies this
      ensures Reaches(c, start, db) && applied == Elements(old(db).recorded)
      ensures db == Move(old(db), p, Scanning(applied, 0)).(lock := Some(p))
    {
      hide Step, Reaches;
      OpenSteps(c, db, p);
      Do(c, start, p, Acquire);
      applied := Elements(db.recorded);
      Do(c, start, p, ReadApplied);
    }

    /** The body of the loop: a file already applied is skipped. */
    method Visit(c: Config, ghost start: Db, p: nat, applied: set<string>, i: nat, fails: string -> Failing)
      returns (ok: bool)
      requires Inv(c, start) && Distinct(c) && Reaches(c, start, db) && i < |c.files(p)|
      requires db.lock == Some(p) && PhaseOf(db, p) == Scanning(applied, i)
      modifies this
      ensures Reaches(c, start, db) && db.lock == Some(p)
      ensures ok == (c.files(p)[i] in applied || fails(c.files(p)[i]).Nowhere?)
      ensures PhaseOf(db, p) == if ok then Scanning(applied, i + 1) else Unlocking(false)
      ensures var f := c.files(p)[i];
              && db.recorded == old(db).recorded +
                   (if f !in applied && LeavesRecord(c, f, fails(f)) then [f] else [])
              && db.effects == old(db).effects +
                   (if f !in applied && LeavesEffect(c, f, fails(f)) then [f] else [])
    {
      if c.files(p)[i] in applied {
        Do(c, start, p, SkipApplied);
        ok := true;
      } else {
        ReachableInv(c, start, db);
        assert SnapshotTrue(c, db, p);
        NamesNext(c.files(p), i);
        assert c.files(p)[i] !in Elements(db.recorded);
        ok := Apply(c, start, p, applied, i, fails(c.files(p)[i]));
      }
    }

    /** The loop over the files; it stops at the first file that fails. */
    method ApplyAll(c: Config, ghost start: Db, p: nat, applied: set<string>, fails: string -> Failing)
      returns (ok: bool)
      requires Inv(c, start) && Distinct(c) && Reaches(c, start, db)
      requires db.lock == Some(p) && PhaseOf(db, p) == Scanning(applied, 0)
      modifies this
      ensures Reaches(c, start, db) && db.lock == Some(p)
      ensures PhaseOf(db, p) == if ok then Scanning(applied, |c.files(p)|) else Unlocking(false)
      ensures Books(db, ok) == PassFrom(c, Books(old(db), true), c.files(p), applied, fails)
    {
      var files := c.files(p);
      ok := true;
      var i := 0;
      assert files[0..] == files;
      while i < |files| && ok
        invariant i <= |files| && Reaches(c, start, db) && db.lock == Some(p)
        invariant PhaseOf(db, p) == if ok then Scanning(applied, i) else Unlocking(false)
        invariant PassFrom(c, Books(old(db), true), files, applied, fails)
                  == if ok then PassFrom(c, Books(db, true), files[i..], applied, fails) else Books(db, false)
        decreases |files| - i, ok
      {
        ghost var before := db;
        ok := Visit(c, start, p, applied, i, fails);
        PassNext(c, before, files, applied, fails, i, db);
        i := if ok then i + 1 else i;
      }
    }

    /** The `finally` block: the lock goes back whatever happened. */
    method Close(c: Config, ghost start: Db, p: nat, applied: set<string>, ok: bool)
      requires Reaches(c, start, db)
      requires PhaseOf(db, p) == if ok then Scanning(applied, |c.files(p)|) else Unlocking(false)
      modifies this
      ensures Reaches(c, start, db) && db == Move(old(db), p, Ended(ok)).(lock := None)
    {
      hide Step, Reaches;
      if ok {
        FinishStep(c, db, p, applied);
        Do(c, start, p, Finish);
      }
      UnlockStep(c, db, p, ok);
      Do(c, start, p, Unlock);
    }

    /** The whole script of replica p once the lock is free; `fails` says where the transaction of a file fails. */
    method Migrate(c: Config, p: nat, fails: string -> Failing) returns (ok: bool)
      requires Inv(c, db) && Distinct(c) && db.lock.None? && PhaseOf(db, p) == Booting
      modifies this
      ensures Reaches(c, old(db), db)
      ensures db.lock.None? && PhaseOf(db, p) == Ended(ok)
      ensures var pass := Pass(c, c.files(p), Elements(old(db).recorded), fails);
              && ok == pass.ok
              && db.recorded == old(db).recorded + pass.recorded && db.effects == old(db).effects + pass.effects
    {
      ghost var start := db;
      assert Run(c, start, []) == start;
      var applied := Open(c, start, p);
      ok := ApplyAll(c, start, p, applied, fails);
      Close(c, start, p, applied, ok);
    }
  }
}
