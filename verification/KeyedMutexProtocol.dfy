/** The reference-counted per-key lock as an interleaving of single statements.

    Any finite set of threads runs `lock(key)` and then the returned unlock function. Every statement
    is one step; a step that has to wait for a mutex leaves the state as it is. A schedule is any
    sequence of moves, so a statement about all schedules is one about all interleavings. */
module KeyedMutexProtocol {
  import opened Basics

  type Tid = int
  type Key = int
  type Ref = int  // the address of a refCountedMutex

  /** The statement a thread is about to run. */
  datatype At =
    | Idle
    | MapLock      // k.mu.Lock() in lock
    | Lookup       // read the entry, create it when there is none
    | Incr         // refs++
    | MapUnlock    // k.mu.Unlock() in lock
    | InnerLock    // m.mu.Lock()
    | Critical     // the caller's section, ending with m.mu.Unlock()
    | Relock       // k.mu.Lock() in unlock
    | Decr         // refs--
    | Drop         // delete the entry when the count is zero
    | FinalUnlock  // k.mu.Unlock() in unlock
  {
    /** Between `k.mu.Lock()` and `k.mu.Unlock()`. */
    predicate InMapSection() {
      Lookup? || Incr? || MapUnlock? || Decr? || Drop? || FinalUnlock?
    }

    /** Between `refs++` and `refs--`. */
    predicate Counted() {
      MapUnlock? || InnerLock? || Critical? || Relock? || Decr?
    }

    /** Relying on the map entry of the key. */
    predicate Pins() {
      Incr? || Counted() || Drop?
    }
  }

  /** A thread: its position and the variables `key` and `m` of its call. */
  datatype Thread = Thread(at: At, key: Key, m: Ref) {
    predicate Counts(r: Ref) { at.Counted() && m == r }
  }

  datatype Cell = Cell(refs: int, owner: Option<Tid>)

  datatype State = State(
    mapOwner: Option<Tid>,
    locks: map<Key, Ref>,
    cells: map<Ref, Cell>,
    next: Ref,  // the address of the next refCountedMutex
    threads: map<Tid, Thread>)

  /** One move: the thread that runs, and the key it asks for in case it starts a call. */
  datatype Move = Move(t: Tid, key: Key)

  function Goto(s: State, t: Tid, at: At): State
    requires t in s.threads
  {
    s.(threads := s.threads[t := s.threads[t].(at := at)])
  }

  function CellAt(s: State, m: Ref): Cell {
    if m in s.cells then s.cells[m] else Cell(0, None)
  }

  function Init(tids: set<Tid>): State {
    State(None, map[], map[], 0, map t | t in tids :: Thread(Idle, 0, 0))
  }

  function Step(s: State, t: Tid, ask: Key): State {
    if t !in s.threads then s else
    var me := s.threads[t];
    var cell := CellAt(s, me.m);
    match me.at
    case Idle => s.(threads := s.threads[t := Thread(MapLock, ask, 0)])
    case MapLock => if s.mapOwner.None? then Goto(s.(mapOwner := Some(t)), t, Lookup) else s
    case Lookup =>
      if me.key in s.locks then s.(threads := s.threads[t := Thread(Incr, me.key, s.locks[me.key])])
      else s.(locks := s.locks[me.key := s.next], cells := s.cells[s.next := Cell(0, None)], next := s.next + 1,
              threads := s.threads[t := Thread(Incr, me.key, s.next)])
    case Incr => Goto(s.(cells := s.cells[me.m := cell.(refs := cell.refs + 1)]), t, MapUnlock)
    case MapUnlock => Goto(s.(mapOwner := None), t, InnerLock)
    case InnerLock =>
      if cell.owner.None? then Goto(s.(cells := s.cells[me.m := cell.(owner := Some(t))]), t, Critical) else s
    case Critical => Goto(s.(cells := s.cells[me.m := cell.(owner := None)]), t, Relock)
    case Relock => if s.mapOwner.None? then Goto(s.(mapOwner := Some(t)), t, Decr) else s
    case Decr => Goto(s.(cells := s.cells[me.m := cell.(refs := cell.refs - 1)]), t, Drop)
    case Drop => Goto(if cell.refs == 0 then s.(locks := s.locks - {me.key}) else s, t, FinalUnlock)
    case FinalUnlock => Goto(s.(mapOwner := None), t, Idle)
  }

  function Exec(s: State, moves: seq<Move>): State {
    if moves == [] then s
    else
      var last := moves[|moves| - 1];
      Step(Exec(s, moves[..|moves| - 1]), last.t, last.key)
  }

  // ---- the invariant ----

  function Holders(s: State, m: Ref): set<Tid> {
    set t | t in s.threads && s.threads[t].Counts(m)
  }

  ghost predicate MapMutex(s: State) {
    && (forall t :: t in s.threads ==> (s.threads[t].at.InMapSection() <==> s.mapOwner == Some(t)))
    && (s.mapOwner.Some? ==> s.mapOwner.value in s.threads)
  }

  ghost predicate RefsExact(s: State) {
    forall m :: m in s.cells ==> s.cells[m].refs == |Holders(s, m)|
  }

  ghost predicate Pinned(s: State) {
    && (forall t :: t in s.threads && s.threads[t].at.Pins() ==>
          s.threads[t].key in s.locks && s.locks[s.threads[t].key] == s.threads[t].m)
    && (forall k :: k in s.locks ==> s.locks[k] in s.cells)
    && (forall k, l :: k in s.locks && l in s.locks && s.locks[k] == s.locks[l] ==> k == l)
    && (forall m :: m in s.cells ==> m < s.next)
  }

  ghost predicate CriticalOwns(s: State) {
    forall t :: t in s.threads && s.threads[t].at.Critical? ==> CellAt(s, s.threads[t].m).owner == Some(t)
  }

  ghost predicate OwnerIsCritical(s: State) {
    forall m :: m in s.cells && s.cells[m].owner.Some? ==>
      var u := s.cells[m].owner.value;
      u in s.threads && s.threads[u].at.Critical? && s.threads[u].m == m
  }

  /** The map lock's holder is about to count on the entry of `k`, or to drop it. */
  ghost predicate Transient(s: State, k: Key) {
    s.mapOwner.Some? && s.mapOwner.value in s.threads &&
    var me := s.threads[s.mapOwner.value];
    (me.at.Incr? || me.at.Drop?) && me.key == k
  }

  ghost predicate NoIdleEntry(s: State) {
    forall k :: k in s.locks ==> CellAt(s, s.locks[k]).refs > 0 || Transient(s, k)
  }

  ghost predicate Inv(s: State) {
    MapMutex(s) && RefsExact(s) && Pinned(s) && CriticalOwns(s) && OwnerIsCritical(s) && NoIdleEntry(s)
  }

  /** Moving one thread changes the set of threads that count on a mutex by at most that thread. */
  lemma HoldersAfter(s: State, s': State, t: Tid, m: Ref)
    requires t in s.threads && t in s'.threads && s'.threads == s.threads[t := s'.threads[t]]
    ensures |Holders(s', m)| == |Holders(s, m)|
            + (if s'.threads[t].Counts(m) then 1 else 0) - (if s.threads[t].Counts(m) then 1 else 0)
  {
    var rest := Holders(s, m) - {t};
    assert Holders(s, m) == if s.threads[t].Counts(m) then rest + {t} else rest;
    assert Holders(s', m) == if s'.threads[t].Counts(m) then rest + {t} else rest;
  }

  /** The reference counts after any step, given what the step did to them. */
  lemma RefsExactAfter(s: State, s': State, t: Tid)
    requires RefsExact(s) && Pinned(s) && t in s.threads && t in s'.threads
    requires s'.threads == s.threads[t := s'.threads[t]]
    requires forall m :: m in s'.cells ==>
      s'.cells[m].refs == CellAt(s, m).refs
        + (if s'.threads[t].Counts(m) then 1 else 0) - (if s.threads[t].Counts(m) then 1 else 0)
    ensures RefsExact(s')
  {
    forall m | m in s'.cells ensures s'.cells[m].refs == |Holders(s', m)| {
      HoldersAfter(s, s', t, m);
      if m !in s.cells {
        forall u | u in s.threads && s.threads[u].Counts(m) ensures false {
          assert s.threads[u].at.Pins();
        }
        assert Holders(s, m) == {};
      }
    }
  }

  /** A mutex some thread counts on has a positive count, so its entry is not dropped. */
  lemma CountedIsPositive(s: State, t: Tid)
    requires RefsExact(s) && Pinned(s) && t in s.threads && s.threads[t].at.Counted()
    ensures CellAt(s, s.threads[t].m).refs > 0
  {
    assert t in Holders(s, s.threads[t].m);
  }

  lemma IdleKeepsInv(s: State, t: Tid, ask: Key)
    requires Inv(s) && t in s.threads && s.threads[t].at == Idle
    ensures Inv(Step(s, t, ask))
  {
    RefsExactAfter(s, Step(s, t, ask), t);
  }

  lemma MapLockKeepsInv(s: State, t: Tid, ask: Key)
    requires Inv(s) && t in s.threads && s.threads[t].at == MapLock
    ensures Inv(Step(s, t, ask))
  {
    RefsExactAfter(s, Step(s, t, ask), t);
  }

  lemma LookupFindsKeepsInv(s: State, t: Tid, ask: Key)
    requires Inv(s) && t in s.threads && s.threads[t].at == Lookup && s.threads[t].key in s.locks
    ensures Inv(Step(s, t, ask))
  {
    RefsExactAfter(s, Step(s, t, ask), t);
  }

  lemma LookupCreatesKeepsInv(s: State, t: Tid, ask: Key)
    requires Inv(s) && t in s.threads && s.threads[t].at == Lookup && s.threads[t].key !in s.locks
    ensures Inv(Step(s, t, ask))
  {
    assert s.next !in s.cells;
    RefsExactAfter(s, Step(s, t, ask), t);
  }

  lemma IncrKeepsInv(s: State, t: Tid, ask: Key)
    requires Inv(s) && t in s.threads && s.threads[t].at == Incr
    ensures Inv(Step(s, t, ask))
  {
    RefsExactAfter(s, Step(s, t, ask), t);
  }

  lemma MapUnlockKeepsInv(s: State, t: Tid, ask: Key)
    requires Inv(s) && t in s.threads && s.threads[t].at == MapUnlock
    ensures Inv(Step(s, t, ask))
  {
    RefsExactAfter(s, Step(s, t, ask), t);
  }

  lemma InnerLockKeepsInv(s: State, t: Tid, ask: Key)
    requires Inv(s) && t in s.threads && s.threads[t].at == InnerLock
    ensures Inv(Step(s, t, ask))
  {
    RefsExactAfter(s, Step(s, t, ask), t);
  }

  lemma CriticalKeepsInv(s: State, t: Tid, ask: Key)
    requires Inv(s) && t in s.threads && s.threads[t].at == Critical
    ensures Inv(Step(s, t, ask))
  {
    RefsExactAfter(s, Step(s, t, ask), t);
  }

  lemma RelockKeepsInv(s: State, t: Tid, ask: Key)
    requires Inv(s) && t in s.threads && s.threads[t].at == Relock
    ensures Inv(Step(s, t, ask))
  {
    RefsExactAfter(s, Step(s, t, ask), t);
  }

  lemma DecrKeepsInv(s: State, t: Tid, ask: Key)
    requires Inv(s) && t in s.threads && s.threads[t].at == Decr
    ensures Inv(Step(s, t, ask))
  {
    RefsExactAfter(s, Step(s, t, ask), t);
  }

  lemma DropLastKeepsInv(s: State, t: Tid, ask: Key)
    requires Inv(s) && t in s.threads && s.threads[t].at == Drop && CellAt(s, s.threads[t].m).refs == 0
    ensures Inv(Step(s, t, ask))
  {
    forall u | u in s.threads && s.threads[u].at.Counted() ensures CellAt(s, s.threads[u].m).refs > 0 {
      CountedIsPositive(s, u);
    }
    RefsExactAfter(s, Step(s, t, ask), t);
  }

  lemma DropOtherKeepsInv(s: State, t: Tid, ask: Key)
    requires Inv(s) && t in s.threads && s.threads[t].at == Drop && CellAt(s, s.threads[t].m).refs != 0
    ensures Inv(Step(s, t, ask))
  {
    assert s.threads[t].at.Pins();
    RefsExactAfter(s, Step(s, t, ask), t);
  }

  lemma FinalUnlockKeepsInv(s: State, t: Tid, ask: Key)
    requires Inv(s) && t in s.threads && s.threads[t].at == FinalUnlock
    ensures Inv(Step(s, t, ask))
  {
    RefsExactAfter(s, Step(s, t, ask), t);
  }

  lemma StepKeepsInv(s: State, t: Tid, ask: Key)
    requires Inv(s)
    ensures Inv(Step(s, t, ask))
  {
    if t in s.threads {
      match s.threads[t].at {
        case Idle => IdleKeepsInv(s, t, ask);
        case MapLock => MapLockKeepsInv(s, t, ask);
        case Lookup =>
          if s.threads[t].key in s.locks { LookupFindsKeepsInv(s, t, ask); } else { LookupCreatesKeepsInv(s, t, ask); }
        case Incr => IncrKeepsInv(s, t, ask);
        case MapUnlock => MapUnlockKeepsInv(s, t, ask);
        case InnerLock => InnerLockKeepsInv(s, t, ask);
        case Critical => CriticalKeepsInv(s, t, ask);
        case Relock => RelockKeepsInv(s, t, ask);
        case Decr => DecrKeepsInv(s, t, ask);
        case Drop =>
          if CellAt(s, s.threads[t].m).refs == 0 { DropLastKeepsInv(s, t, ask); } else { DropOtherKeepsInv(s, t, ask); }
        case FinalUnlock => FinalUnlockKeepsInv(s, t, ask);
      }
    }
  }

  lemma {:induction false} ExecKeepsInv(s: State, moves: seq<Move>)
    requires Inv(s)
    ensures Inv(Exec(s, moves))
  {
    if moves != [] {
      var last := moves[|moves| - 1];
      ExecKeepsInv(s, moves[..|moves| - 1]);
      StepKeepsInv(Exec(s, moves[..|moves| - 1]), last.t, last.key);
    }
  }

  /** Every state a set of threads reaches from the empty map satisfies the invariant. */
  lemma ReachableInv(tids: set<Tid>, moves: seq<Move>)
    ensures Inv(Exec(Init(tids), moves))
  {
    ExecKeepsInv(Init(tids), moves);
  }

  // ---- what callers rely on ----

  lemma OneCriticalPerKey(s: State, t: Tid, u: Tid)
    requires Inv(s) && t in s.threads && u in s.threads && s.threads[t].at.Critical? && s.threads[u].at.Critical?
    requires s.threads[t].key == s.threads[u].key
    ensures t == u
  {
    assert s.threads[t].m == s.threads[u].m;
  }

  /** Two threads inside the critical section of one key are the same thread, however often the
      entry was deleted and created again. */
  lemma MutualExclusion(tids: set<Tid>, moves: seq<Move>, t: Tid, u: Tid)
    requires var s := Exec(Init(tids), moves);
             t in s.threads && u in s.threads && s.threads[t].at.Critical? && s.threads[u].at.Critical?
             && s.threads[t].key == s.threads[u].key
    ensures t == u
  {
    ReachableInv(tids, moves);
    OneCriticalPerKey(Exec(Init(tids), moves), t, u);
  }

  function CallersOf(s: State, k: Key): set<Tid> {
    set t | t in s.threads && s.threads[t].at.Counted() && s.threads[t].key == k
  }

  lemma CallersAreHolders(s: State, k: Key)
    requires Inv(s)
    ensures if k in s.locks then CallersOf(s, k) == Holders(s, s.locks[k]) else CallersOf(s, k) == {}
  {
    forall t | t in s.threads && s.threads[t].at.Counted()
      ensures s.threads[t].key in s.locks && s.locks[s.threads[t].key] == s.threads[t].m
    {
      assert s.threads[t].at.Pins();
    }
    if k in s.locks {
      assert forall t :: t in Holders(s, s.locks[k]) <==> t in CallersOf(s, k);
    } else {
      assert forall t :: t !in CallersOf(s, k);
    }
  }

  /** The count of an entry is the number of callers of its key between `refs++` and `refs--`, and a
      key without an entry has no such caller. */
  lemma RefCountIsCallers(tids: set<Tid>, moves: seq<Move>, k: Key)
    ensures var s := Exec(Init(tids), moves);
            if k in s.locks then CellAt(s, s.locks[k]).refs == |CallersOf(s, k)| else CallersOf(s, k) == {}
  {
    ReachableInv(tids, moves);
    CallersAreHolders(Exec(Init(tids), moves), k);
  }

  /** Nothing is left behind: outside the map lock, the map holds exactly the keys in use. */
  lemma EntriesAreInUse(tids: set<Tid>, moves: seq<Move>)
    requires Exec(Init(tids), moves).mapOwner.None?
    ensures var s := Exec(Init(tids), moves); forall k :: k in s.locks <==> CallersOf(s, k) != {}
  {
    var s := Exec(Init(tids), moves);
    ReachableInv(tids, moves);
    forall k ensures k in s.locks <==> CallersOf(s, k) != {} {
      RefCountIsCallers(tids, moves, k);
    }
  }

  /** The map lock is taken exactly while some thread is inside the map section. */
  lemma SectionHasOwner(s: State)
    requires Inv(s)
    ensures s.mapOwner.Some? ==> s.mapOwner.value in s.threads && s.threads[s.mapOwner.value].at.InMapSection()
    ensures s.mapOwner.Some? <==> exists u :: u in s.threads && s.threads[u].at.InMapSection()
  {
    if s.mapOwner.Some? {
      var o := s.mapOwner.value;
      assert o in s.threads;
      assert s.threads[o].at.InMapSection() <==> s.mapOwner == Some(o);
    }
  }

  ghost predicate AllIdle(s: State) {
    forall t :: t in s.threads ==> s.threads[t].at.Idle?
  }

  lemma IdleStateIsEmpty(s: State)
    requires Inv(s) && AllIdle(s)
    ensures s.locks == map[]
  {
    forall k ensures k !in s.locks {
      if k in s.locks { NotHeldNotThere(s, k); }
    }
  }

  lemma IdleIsNotTransient(s: State, k: Key)
    requires AllIdle(s)
    ensures !Transient(s, k)
  {
    if s.mapOwner.Some? {
      var o := s.mapOwner.value;
      if o in s.threads {
        var me := s.threads[o];
        assert me.at.Idle?;
      }
    }
  }

  lemma NobodyCounts(s: State, m: Ref)
    requires AllIdle(s)
    ensures Holders(s, m) == {}
  {
    forall t | t in s.threads ensures !s.threads[t].Counts(m) {
      assert s.threads[t].at.Idle?;
    }
    assert forall t :: t !in Holders(s, m);
  }

  lemma NotHeldNotThere(s: State, k: Key)
    requires Inv(s) && AllIdle(s)
    ensures k !in s.locks
  {
    IdleIsNotTransient(s, k);
    if k in s.locks { NobodyCounts(s, s.locks[k]); }
  }

  /** When every thread is idle the map is empty. */
  lemma IdleMeansEmpty(tids: set<Tid>, moves: seq<Move>)
    requires AllIdle(Exec(Init(tids), moves))
    ensures Exec(Init(tids), moves).locks == map[]
  {
    ReachableInv(tids, moves);
    IdleStateIsEmpty(Exec(Init(tids), moves));
  }

  predicate Blocked(s: State, t: Tid, ask: Key)
    requires t in s.threads
  {
    Step(s, t, ask) == s
  }

  lemma BlockedOnlyAtLocks(s: State, t: Tid, ask: Key)
    requires t in s.threads
    ensures Blocked(s, t, ask) <==>
            || ((s.threads[t].at.MapLock? || s.threads[t].at.Relock?) && s.mapOwner.Some?)
            || (s.threads[t].at.InnerLock? && CellAt(s, s.threads[t].m).owner.Some?)
  {
    assert Blocked(s, t, ask) <==> Step(s, t, ask).threads[t] == s.threads[t];
  }

  /** The owner of the mutex a thread waits for is inside the critical section of the same key. */
  lemma InnerOwnerHasSameKey(s: State, t: Tid)
    requires Inv(s) && t in s.threads && s.threads[t].at.InnerLock?
    ensures CellAt(s, s.threads[t].m).owner.Some? <==>
            exists u :: u in s.threads && s.threads[u].at.Critical? && s.threads[u].key == s.threads[t].key
  {
    if CellAt(s, s.threads[t].m).owner.Some? {
      var u := CellAt(s, s.threads[t].m).owner.value;
      assert s.threads[u].at.Critical? && s.threads[u].key == s.threads[t].key;
    }
  }

  /** A thread waits only for the map lock while some thread is inside the map section, or for its own
      key while another thread is inside the critical section of that very key. */
  lemma BlockedOnlyBySameKey(tids: set<Tid>, moves: seq<Move>, t: Tid, ask: Key)
    requires var s := Exec(Init(tids), moves); t in s.threads
    ensures var s := Exec(Init(tids), moves);
            Blocked(s, t, ask) <==>
              || ((s.threads[t].at.MapLock? || s.threads[t].at.Relock?)
                   && exists u :: u in s.threads && s.threads[u].at.InMapSection())
              || (s.threads[t].at.InnerLock?
                   && exists u :: u in s.threads && s.threads[u].at.Critical? && s.threads[u].key == s.threads[t].key)
  {
    var s := Exec(Init(tids), moves);
    ReachableInv(tids, moves);
    BlockedOnlyAtLocks(s, t, ask);
    SectionHasOwner(s);
    if s.threads[t].at.InnerLock? { InnerOwnerHasSameKey(s, t); }
  }

  /** No deadlock: while some call is unfinished, some unfinished call can run its next statement. */
  lemma NoDeadlock(tids: set<Tid>, moves: seq<Move>, busy: Tid) returns (t: Tid)
    requires var s := Exec(Init(tids), moves); busy in s.threads && !s.threads[busy].at.Idle?
    ensures var s := Exec(Init(tids), moves); t in s.threads && !s.threads[t].at.Idle? && !Blocked(s, t, 0)
  {
    var s := Exec(Init(tids), moves);
    ReachableInv(tids, moves);
    if s.mapOwner.Some? {
      t := s.mapOwner.value;
    } else if s.threads[busy].at.InnerLock? && CellAt(s, s.threads[busy].m).owner.Some? {
      t := CellAt(s, s.threads[busy].m).owner.value;
    } else {
      t := busy;
    }
    BlockedOnlyAtLocks(s, t, 0);
  }

  // ---- independence of keys ----

  lemma {:induction false} ExecFirst(s: State, first: Move, rest: seq<Move>)
    ensures Exec(s, [first] + rest) == Exec(Step(s, first.t, first.key), rest)
  {
    var moves := [first] + rest;
    if rest == [] {
      assert moves[..|moves| - 1] == [];
    } else {
      ExecFirst(s, first, rest[..|rest| - 1]);
      assert moves[..|moves| - 1] == [first] + rest[..|rest| - 1];
    }
  }

  /** `t` has called `lock` and does not hold its key yet; nobody is inside the section of that key. */
  ghost predicate Acquiring(s: State, t: Tid) {
    && t in s.threads
    && (s.threads[t].at.MapLock? || s.threads[t].at.Lookup? || s.threads[t].at.Incr?
        || s.threads[t].at.MapUnlock? || s.threads[t].at.InnerLock?)
    && forall u :: u in s.threads && s.threads[u].at.Critical? ==> s.threads[u].key != s.threads[t].key
  }

  /** Statements left until the end of the map section. */
  function Left(at: At): nat {
    match at
    case Lookup => 3 case Incr => 2 case MapUnlock => 1
    case Decr => 3 case Drop => 2 case FinalUnlock => 1
    case _ => 0
  }

  function Distance(s: State, t: Tid): nat
    requires t in s.threads
  {
    if s.threads[t].at.InnerLock? then 1
    else if !s.threads[t].at.MapLock? then 1 + Left(s.threads[t].at)
    else if s.mapOwner.Some? && s.mapOwner.value in s.threads then 5 + Left(s.threads[s.mapOwner.value].at)
    else 5
  }

  /** The thread to run next so that `t` gets on: the map section's thread while `t` waits for it. */
  function Helper(s: State, t: Tid): Tid
    requires t in s.threads
  {
    if s.threads[t].at.MapLock? && s.mapOwner.Some? then s.mapOwner.value else t
  }

  /** The step of `h` brings `t` closer to its key and changes no thread inside a critical section. */
  ghost predicate Helps(s: State, h: Tid, t: Tid)
    requires t in s.threads
  {
    && h in s.threads && !s.threads[h].at.Critical?
    && var s' := Step(s, h, 0);
       Acquiring(s', t) && s'.threads[t].key == s.threads[t].key && Distance(s', t) < Distance(s, t)
       && s'.threads == s.threads[h := s'.threads[h]] && !s'.threads[h].at.Critical?
  }

  lemma OwnerHelps(s: State, t: Tid)
    requires Inv(s) && Acquiring(s, t) && s.threads[t].at.MapLock? && s.mapOwner.Some?
    ensures Helps(s, s.mapOwner.value, t)
  {
    var h := s.mapOwner.value;
    assert h in s.threads && s.threads[h].at.InMapSection();
  }

  lemma GoesOnItself(s: State, t: Tid)
    requires Inv(s) && Acquiring(s, t) && !s.threads[t].at.InnerLock?
    requires s.threads[t].at.MapLock? ==> s.mapOwner.None?
    ensures Helps(s, t, t)
  {}

  lemma HelperStep(s: State, t: Tid)
    requires Inv(s) && Acquiring(s, t) && !s.threads[t].at.InnerLock?
    ensures Helps(s, Helper(s, t), t)
  {
    if s.threads[t].at.MapLock? && s.mapOwner.Some? { OwnerHelps(s, t); } else { GoesOnItself(s, t); }
  }

  lemma FreeMutexIsTaken(s: State, t: Tid)
    requires Inv(s) && Acquiring(s, t) && s.threads[t].at.InnerLock?
    ensures var s' := Exec(s, [Move(t, 0)]);
            t in s'.threads && s'.threads[t].at.Critical? && s'.threads[t].key == s.threads[t].key
  {
    InnerOwnerHasSameKey(s, t);
    ExecFirst(s, Move(t, 0), []);
    assert [Move(t, 0)] + [] == [Move(t, 0)];
  }

  /** None of the moves belongs to a thread that is inside a critical section. */
  ghost predicate Outsiders(s: State, moves: seq<Move>) {
    forall i :: 0 <= i < |moves| ==> moves[i].t in s.threads && !s.threads[moves[i].t].at.Critical?
  }

  lemma OutsidersFirst(s: State, h: Tid, t: Tid, rest: seq<Move>)
    requires t in s.threads && Helps(s, h, t) && Outsiders(Step(s, h, 0), rest)
    ensures Outsiders(s, [Move(h, 0)] + rest)
  {
    var moves := [Move(h, 0)] + rest;
    forall i | 0 <= i < |moves| ensures moves[i].t in s.threads && !s.threads[moves[i].t].at.Critical? {
      if i > 0 { assert moves[i] == rest[i - 1]; }
    }
  }

  /** Nobody inside the critical section of another key stands in the way: a caller whose own key is
      free obtains it by moves of which none belongs to a thread inside a critical section. */
  lemma {:induction false} OtherKeysDoNotDelay(s: State, t: Tid) returns (moves: seq<Move>)
    requires Inv(s) && Acquiring(s, t)
    ensures var s' := Exec(s, moves);
            t in s'.threads && s'.threads[t].at.Critical? && s'.threads[t].key == s.threads[t].key
    ensures Outsiders(s, moves) && |moves| <= Distance(s, t)
    decreases Distance(s, t)
  {
    if s.threads[t].at.InnerLock? {
      moves := [Move(t, 0)];
      FreeMutexIsTaken(s, t);
    } else {
      HelperStep(s, t);
      var h := Helper(s, t);
      StepKeepsInv(s, h, 0);
      var rest := OtherKeysDoNotDelay(Step(s, h, 0), t);
      moves := [Move(h, 0)] + rest;
      ExecFirst(s, Move(h, 0), rest);
      OutsidersFirst(s, h, t, rest);
    }
  }
}
