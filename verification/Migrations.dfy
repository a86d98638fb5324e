/** The migration runner: any number of replicas start it at any time, transactions fail, processes
    crash, and even the session that holds the advisory lock can be lost while its process goes on.

    `versions` is the sorted list of the embedded files' names without their suffix; applying a body
    appends its version to the schema. */
module Migrations {
  import opened Basics

  type Version = string
  type Rid = int

  /** vault.schema_migrations and the schema built so far. */
  datatype Database = Database(recorded: set<Version>, schema: seq<Version>)

  /** How a migration transaction ends; after a commit that was not heard the runner reports an error. */
  datatype TxEnd = Committed | CommittedUnheard | RolledBack

  predicate Distinct(versions: seq<Version>) {
    forall i, j :: 0 <= i < j < |versions| ==> versions[i] != versions[j]
  }

  /** One transaction: apply the body and record the version, both or neither. The primary key refuses a
      version that is already recorded. */
  function RunTx(db: Database, v: Version, end: TxEnd): (Database, bool) {
    if end == RolledBack || v in db.recorded then (db, false)
    else (Database(db.recorded + {v}, db.schema + [v]), end == Committed)
  }

  /** Exactly the first `n` versions have been applied and recorded. */
  ghost predicate UpTo(db: Database, versions: seq<Version>, n: nat) {
    n <= |versions| && db.schema == versions[..n] && forall v :: v in db.recorded <==> v in versions[..n]
  }

  lemma TxExtends(db: Database, versions: seq<Version>, n: nat, end: TxEnd)
    requires Distinct(versions) && UpTo(db, versions, n) && n < |versions|
    ensures versions[n] !in db.recorded
    ensures RunTx(db, versions[n], end).0 != db ==> UpTo(RunTx(db, versions[n], end).0, versions, n + 1)
  {
    assert versions[..n + 1] == versions[..n] + [versions[n]];
  }

  lemma AppliedIsBefore(db: Database, versions: seq<Version>, n: nat, i: nat)
    requires Distinct(versions) && UpTo(db, versions, n) && i < |versions|
    ensures versions[i] in db.recorded <==> i < n
  {
    assert versions[i] in versions[..n] <==> exists j :: 0 <= j < n && versions[..n][j] == versions[i];
    assert i < n ==> versions[..n][i] == versions[i];
  }

  // ---- one run of the code ----

  /** What one run meets: whether it gets the lock and ensures the version table, whether the query for the
      i-th version succeeds, and how its transaction ends if there is one. */
  datatype World = World(ready: bool, looks: int -> bool, ends: int -> TxEnd)

  /** The query or transaction of version i is the first to fail; versions that are applied need no transaction. */
  predicate FirstFault(w: World, n: int, i: int, count: int) {
    && 0 <= i < count && (!w.looks(i) || (i >= n && w.ends(i) != Committed))
    && forall j :: 0 <= j < i ==> w.looks(j) && (j >= n ==> w.ends(j) == Committed)
  }

  /** Where the first fault leaves the database: what was applied before is there, and all before the fault; and
      the version of a commit that was not heard. */
  ghost predicate StoppedAtFault(db: Database, versions: seq<Version>, w: World, n: int) {
    forall i :: FirstFault(w, n, i, |versions|) ==>
      UpTo(db, versions, if i < n then n else if w.looks(i) && w.ends(i) == CommittedUnheard then i + 1 else i)
  }

  lemma OneFirstFault(w: World, n: int, i: int, count: int)
    requires FirstFault(w, n, i, count)
    ensures forall j :: FirstFault(w, n, j, count) ==> j == i
  {}

  class Runner {
    var db: Database

    constructor ()
      ensures db == Database({}, [])
    {
      db := Database({}, []);
    }

    /** Migrate, alone. What was applied before stays, the rest is applied in order up to the first query or
        transaction that fails, and success means that everything is applied. */
    method Migrate(versions: seq<Version>, w: World, ghost n: nat) returns (ok: bool)
      requires Distinct(versions) && UpTo(db, versions, n)
      modifies this
      ensures ok <==> w.ready && forall i :: 0 <= i < |versions| ==> w.looks(i) && (i >= n ==> w.ends(i) == Committed)
      ensures ok ==> UpTo(db, versions, |versions|)
      ensures !w.ready || n == |versions| ==> db == old(db)
      ensures w.ready ==> StoppedAtFault(db, versions, w, n)
    {
      if !w.ready {
        return false;
      }
      var i := 0;
      while i < |versions|
        invariant 0 <= i <= |versions| && forall j :: 0 <= j < i ==> w.looks(j) && (j >= n ==> w.ends(j) == Committed)
        invariant UpTo(db, versions, Max(n, i))
        invariant i <= n ==> db == old(db)
      {
        if !w.looks(i) {
          OneFirstFault(w, n, i, |versions|);
          return false;
        }
        AppliedIsBefore(db, versions, Max(n, i), i);
        if versions[i] !in db.recorded {
          TxExtends(db, versions, i, w.ends(i));
          var (after, committed) := RunTx(db, versions[i], w.ends(i));
          db := after;
          if !committed {
            OneFirstFault(w, n, i, |versions|);
            return false;
          }
        }
        i := i + 1;
      }
      return true;
    }
  }

  // ---- any number of replicas ----

  datatype Replica =
    | Stopped
    | Waiting            // for the advisory lock
    | Looking(i: nat)    // about to ask whether version i is recorded
    | Applying(i: nat)   // has seen that it is not
    | Migrated

  datatype State = State(lock: Option<Rid>, replicas: map<Rid, Replica>, db: Database)

  datatype Act = Begin | Acquire | Look | Tx(end: TxEnd) | QueryFails | Crash | LoseLock

  datatype Move = Move(r: Rid, act: Act)

  function Init(rids: set<Rid>): State {
    State(None, map r | r in rids :: Stopped, Database({}, []))
  }

  /** Leaving Migrate, normally or not, gives the lock back if it is still held. */
  function Leave(s: State, r: Rid, how: Replica): State {
    s.(lock := if s.lock == Some(r) then None else s.lock, replicas := s.replicas[r := how])
  }

  function Step(s: State, r: Rid, act: Act, versions: seq<Version>): State {
    if r !in s.replicas then s else
    var me := s.replicas[r];
    match act
    case Begin => if me.Stopped? || me.Migrated? then s.(replicas := s.replicas[r := Waiting]) else s
    case Acquire =>
      if me.Waiting? && s.lock.None? then s.(lock := Some(r), replicas := s.replicas[r := Looking(0)]) else s
    case Look =>
      if !me.Looking? then s
      else if me.i >= |versions| then Leave(s, r, Migrated)
      else if versions[me.i] in s.db.recorded then s.(replicas := s.replicas[r := Looking(me.i + 1)])
      else s.(replicas := s.replicas[r := Applying(me.i)])
    case Tx(end) =>
      if !me.Applying? || me.i >= |versions| then s
      else
        var (db, committed) := RunTx(s.db, versions[me.i], end);
        if committed then s.(db := db, replicas := s.replicas[r := Looking(me.i + 1)])
        else Leave(s.(db := db), r, Stopped)
    case QueryFails => if me.Looking? then Leave(s, r, Stopped) else s
    case Crash => Leave(s, r, Stopped)
    case LoseLock => if s.lock == Some(r) then s.(lock := None) else s
  }

  function Exec(s: State, moves: seq<Move>, versions: seq<Version>): State {
    if moves == [] then s
    else
      var last := moves[|moves| - 1];
      Step(Exec(s, moves[..|moves| - 1], versions), last.r, last.act, versions)
  }

  /** The database is a prefix, and no replica is past it. */
  ghost predicate Inv(s: State, versions: seq<Version>) {
    && UpTo(s.db, versions, |s.db.schema|)
    && forall r :: r in s.replicas ==>
         match s.replicas[r]
         case Looking(i) => i <= |s.db.schema|
         case Applying(i) => i <= |s.db.schema| && i < |versions|
         case Migrated => s.db.schema == versions
         case _ => true
  }

  lemma StepKeepsInv(s: State, r: Rid, act: Act, versions: seq<Version>)
    requires Distinct(versions) && Inv(s, versions)
    ensures Inv(Step(s, r, act, versions), versions)
    ensures s.db.schema <= Step(s, r, act, versions).db.schema
  {
    var n := |s.db.schema|;
    if r in s.replicas {
      var me := s.replicas[r];
      if act.Tx? && me.Applying? && me.i < |versions| {
        if me.i < n {
          assert versions[me.i] in versions[..n];
        } else {
          TxExtends(s.db, versions, n, act.end);
        }
      }
      if act.Look? && me.Looking? && me.i < |versions| && versions[me.i] in s.db.recorded {
        assert me.i < n;
      }
    }
  }

  lemma {:induction false} ExecKeepsInv(s: State, moves: seq<Move>, versions: seq<Version>)
    requires Distinct(versions) && Inv(s, versions)
    ensures Inv(Exec(s, moves, versions), versions) && s.db.schema <= Exec(s, moves, versions).db.schema
  {
    if moves != [] {
      var last := moves[|moves| - 1];
      ExecKeepsInv(s, moves[..|moves| - 1], versions);
      StepKeepsInv(Exec(s, moves[..|moves| - 1], versions), last.r, last.act, versions);
    }
  }

  // ---- what deployments rely on ----

  /** Whatever replicas do, crash or lose, exactly a prefix of the versions is recorded, and the schema
      is what that prefix's bodies make of the empty database, each applied once and in order. */
  lemma SchemaIsPrefix(rids: set<Rid>, moves: seq<Move>, versions: seq<Version>)
    requires Distinct(versions)
    ensures var db := Exec(Init(rids), moves, versions).db;
            && |db.schema| <= |versions| && db.schema == versions[..|db.schema|]
            && (forall v :: v in db.recorded <==> v in versions[..|db.schema|])
  {
    ExecKeepsInv(Init(rids), moves, versions);
  }

  /** A replica that reports success leaves a complete database, which no later move changes. */
  lemma SuccessIsFinal(rids: set<Rid>, moves: seq<Move>, more: seq<Move>, versions: seq<Version>, r: Rid)
    requires Distinct(versions)
    requires var s := Exec(Init(rids), moves, versions); r in s.replicas && s.replicas[r].Migrated?
    ensures var s := Exec(Init(rids), moves, versions);
            s.db.schema == versions && Exec(s, more, versions).db == s.db
  {
    var s := Exec(Init(rids), moves, versions);
    ExecKeepsInv(Init(rids), moves, versions);
    ExecKeepsInv(s, more, versions);
    var s' := Exec(s, more, versions);
    assert UpTo(s'.db, versions, |versions|);
    assert s'.db.recorded == s.db.recorded;
  }

  /** While no lock session is lost, only the lock's holder works. */
  ghost predicate HolderOnly(s: State, versions: seq<Version>) {
    forall r :: r in s.replicas ==>
      && (s.replicas[r].Looking? || s.replicas[r].Applying? ==> s.lock == Some(r))
      && (s.replicas[r].Applying? && s.replicas[r].i < |versions| ==> versions[s.replicas[r].i] !in s.db.recorded)
  }

  lemma StepKeepsHolderOnly(s: State, r: Rid, act: Act, versions: seq<Version>)
    requires HolderOnly(s, versions) && !act.LoseLock?
    ensures HolderOnly(Step(s, r, act, versions), versions)
  {}

  /** And then the loser of a race sees the versions as applied: no transaction meets a version that is
      already recorded, so it fails only when the database rolls it back. */
  lemma {:induction false} NoDuplicateUnderLock(rids: set<Rid>, moves: seq<Move>, versions: seq<Version>)
    requires forall k :: 0 <= k < |moves| ==> !moves[k].act.LoseLock?
    ensures HolderOnly(Exec(Init(rids), moves, versions), versions)
  {
    if moves != [] {
      var last := moves[|moves| - 1];
      NoDuplicateUnderLock(rids, moves[..|moves| - 1], versions);
      StepKeepsHolderOnly(Exec(Init(rids), moves[..|moves| - 1], versions), last.r, last.act, versions);
    }
  }

  // ---- a replica alone gets through ----

  /** The replica holds the lock and is about to ask for version i, which is the next or one applied already. */
  ghost predicate Working(s: State, r: Rid, i: nat, versions: seq<Version>) {
    r in s.replicas && s.lock == Some(r) && s.replicas[r] == Looking(i) && i <= |versions| && Inv(s, versions)
  }

  lemma Then(s0: State, moves: seq<Move>, r: Rid, act: Act, versions: seq<Version>) returns (more: seq<Move>)
    ensures Exec(s0, more, versions) == Step(Exec(s0, moves, versions), r, act, versions)
  {
    more := moves + [Move(r, act)];
    assert more[..|more| - 1] == moves;
  }

  /** It goes past one version: over an applied one, or by applying it. */
  lemma PassesVersion(s0: State, moves: seq<Move>, r: Rid, i: nat, versions: seq<Version>) returns (more: seq<Move>)
    requires Distinct(versions) && Working(Exec(s0, moves, versions), r, i, versions) && i < |versions|
    ensures Working(Exec(s0, more, versions), r, i + 1, versions)
  {
    var s := Exec(s0, moves, versions);
    StepKeepsInv(s, r, Look, versions);
    more := Then(s0, moves, r, Look, versions);
    if versions[i] !in s.db.recorded {
      StepKeepsInv(Exec(s0, more, versions), r, Tx(Committed), versions);
      more := Then(s0, more, r, Tx(Committed), versions);
    }
  }

  lemma {:induction false} WorksThrough(s0: State, moves: seq<Move>, r: Rid, i: nat, versions: seq<Version>) returns (more: seq<Move>)
    requires Distinct(versions) && Working(Exec(s0, moves, versions), r, i, versions)
    ensures Working(Exec(s0, more, versions), r, |versions|, versions)
    decreases |versions| - i
  {
    more := moves;
    if i < |versions| {
      more := PassesVersion(s0, moves, r, i, versions);
      more := WorksThrough(s0, more, r, i + 1, versions);
    }
  }

  /** After any run that leaves the lock free, a replica that is not at work and meets no fault from then on
      reports success, and the database is complete. */
  lemma UndisturbedReplicaSucceeds(rids: set<Rid>, moves: seq<Move>, versions: seq<Version>, r: Rid) returns (more: seq<Move>)
    requires Distinct(versions)
    requires var s := Exec(Init(rids), moves, versions);
             s.lock.None? && r in s.replicas && (s.replicas[r].Stopped? || s.replicas[r].Migrated?)
    ensures var s := Exec(Init(rids), more, versions);
            r in s.replicas && s.replicas[r].Migrated? && s.db.schema == versions && s.lock.None?
  {
    ExecKeepsInv(Init(rids), moves, versions);
    var s := Exec(Init(rids), moves, versions);
    StepKeepsInv(s, r, Begin, versions);
    more := Then(Init(rids), moves, r, Begin, versions);
    StepKeepsInv(Exec(Init(rids), more, versions), r, Acquire, versions);
    more := Then(Init(rids), more, r, Acquire, versions);
    more := WorksThrough(Init(rids), more, r, 0, versions);
    StepKeepsInv(Exec(Init(rids), more, versions), r, Look, versions);
    more := Then(Init(rids), more, r, Look, versions);
  }
}
