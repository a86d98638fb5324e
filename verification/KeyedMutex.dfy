/** The two sections `keyedMutex` runs under its map lock, as methods on the map and the counters
    themselves. KeyedMutexProtocol interleaves their statements; here each section runs alone, and the
    lemmas at the end show that a section of the protocol does to the counts what the method does. */
module KeyedMutex {
  import P = KeyedMutexProtocol

  type Key = P.Key

  /** The counts after one more caller of `key`. */
  function Entered(refs: map<Key, int>, key: Key): map<Key, int> {
    refs[key := (if key in refs then refs[key] else 0) + 1]
  }

  /** The counts after one caller of `key` is done; the last one takes the entry away. */
  function Exited(refs: map<Key, int>, key: Key): map<Key, int>
    requires key in refs
  {
    if refs[key] == 1 then refs - {key} else refs[key := refs[key] - 1]
  }

  class RefCountedMutex {
    var refs: int

    constructor ()
      ensures refs == 0
    {
      refs := 0;
    }
  }

  class KeyedMutex {
    var locks: map<Key, RefCountedMutex>

    constructor ()
      ensures Valid() && Refs() == map[]
    {
      locks := map[];
    }

    /** Keys have their own mutex, and no entry is idle. */
    ghost predicate Valid()
      reads this, locks.Values
    {
      && (forall k :: k in locks ==> locks[k].refs > 0)
      && (forall k, l :: k in locks && l in locks && locks[k] == locks[l] ==> k == l)
    }

    ghost function Refs(): map<Key, int>
      reads this, locks.Values
    {
      map k | k in locks :: locks[k].refs
    }

    /** The first section of `lock`: find or create the mutex of `key` and count on it. */
    method Enter(key: Key) returns (m: RefCountedMutex)
      requires Valid()
      modifies this, locks.Values
      ensures Valid() && Refs() == Entered(old(Refs()), key)
      ensures locks == old(locks)[key := m]
      ensures if key in old(locks) then m == old(locks[key]) else fresh(m)
      ensures m.refs == (if key in old(locks) then old(locks[key].refs) else 0) + 1
      ensures forall k :: k in old(locks) && k != key ==> locks[k] == old(locks[k]) && locks[k].refs == old(locks[k].refs)
    {
      if key in locks {
        m := locks[key];
      } else {
        m := new RefCountedMutex();
        locks := locks[key := m];
      }
      m.refs := m.refs + 1;
      assert Refs().Keys == Entered(old(Refs()), key).Keys;
      assert forall k :: k in locks && k != key ==> locks[k].refs == old(Refs())[k];
    }

    /** The last section of unlock: count off, and drop the entry when nobody is left. The entry is still
        `m` because the caller is counted on it; KeyedMutexProtocol proves that of every schedule. */
    method Leave(key: Key, m: RefCountedMutex)
      requires Valid()
      requires key in locks && locks[key] == m
      modifies this, m
      ensures Valid() && Refs() == Exited(old(Refs()), key)
      ensures forall k :: k in old(locks) && k != key ==> k in locks && locks[k] == old(locks[k]) && locks[k].refs == old(locks[k].refs)
      ensures m.refs == old(m.refs) - 1 && (key in locks <==> old(m.refs) > 1) && (key in locks ==> locks[key] == m)
    {
      m.refs := m.refs - 1;
      if m.refs == 0 {
        locks := locks - {key};
      }
      assert forall k :: k in locks && k != key ==> locks[k].refs == old(Refs())[k];
      assert Refs().Keys == Exited(old(Refs()), key).Keys;
    }
  }

  /** Leaving undoes entering, whatever the map held. */
  lemma ExitUndoesEnter(refs: map<Key, int>, key: Key)
    requires forall k :: k in refs ==> refs[k] > 0
    ensures Exited(Entered(refs, key), key) == refs
  {
    assert Exited(Entered(refs, key), key).Keys == refs.Keys;
  }

  // ---- the sections inside the protocol ----

  function CountsOf(s: P.State): map<Key, int> {
    map k | k in s.locks :: P.CellAt(s, s.locks[k]).refs
  }

  function ThreeSteps(s: P.State, t: P.Tid): P.State {
    P.Step(P.Step(P.Step(s, t, 0), t, 0), t, 0)
  }

  /** A section leaves the counts of other keys alone. */
  lemma EnterAlone(s: P.State, t: P.Tid)
    requires P.Inv(s) && t in s.threads && s.threads[t].at == P.Lookup
    ensures var key, s3 := s.threads[t].key, ThreeSteps(s, t);
            && t in s3.threads && s3.threads[t].at == P.InnerLock && s3.mapOwner.None?
            && key in s3.locks && s3.locks == s.locks[key := s3.locks[key]]
            && (key in s.locks ==> s3.locks == s.locks) && (key !in s.locks ==> s3.locks[key] == s.next)
            && s3.locks[key] in s3.cells && s3.cells == s.cells[s3.locks[key] := s3.cells[s3.locks[key]]]
            && s3.cells[s3.locks[key]].refs == (if key in s.locks then P.CellAt(s, s.locks[key]).refs else 0) + 1
  {
    var key := s.threads[t].key;
    var s1 := P.Step(s, t, 0);
    assert s1.threads[t] == P.Thread(P.Incr, key, if key in s.locks then s.locks[key] else s.next);
    var s2 := P.Step(s1, t, 0);
    assert s2.threads[t].at == P.MapUnlock && s2.locks == s1.locks;
  }

  lemma ProtocolEnters(s: P.State, t: P.Tid)
    requires P.Inv(s) && t in s.threads && s.threads[t].at == P.Lookup
    ensures CountsOf(ThreeSteps(s, t)) == Entered(CountsOf(s), s.threads[t].key)
  {
    var key, s3 := s.threads[t].key, ThreeSteps(s, t);
    EnterAlone(s, t);
    assert s.next !in s.cells;
    forall k | k in s.locks && k != key ensures k in s3.locks && s3.locks[k] == s.locks[k] && s3.locks[k] != s3.locks[key] {}
    assert CountsOf(s3).Keys == Entered(CountsOf(s), key).Keys;
    forall k | k in s3.locks ensures CountsOf(s3)[k] == Entered(CountsOf(s), key)[k] {
      if k != key { assert P.CellAt(s3, s3.locks[k]) == P.CellAt(s, s.locks[k]); }
    }
  }

  lemma ExitAlone(s: P.State, t: P.Tid)
    requires P.Inv(s) && t in s.threads && s.threads[t].at == P.Decr
    ensures var key, s3 := s.threads[t].key, ThreeSteps(s, t);
            && t in s3.threads && s3.threads[t].at == P.Idle && s3.mapOwner.None?
            && key in s.locks && s.locks[key] == s.threads[t].m
            && s3.locks == (if P.CellAt(s, s.locks[key]).refs == 1 then s.locks - {key} else s.locks)
            && s3.cells == s.cells[s.locks[key] := P.CellAt(s, s.locks[key]).(refs := P.CellAt(s, s.locks[key]).refs - 1)]
  {
    assert s.threads[t].at.Pins();
    var s1 := P.Step(s, t, 0);
    assert s1.threads[t] == s.threads[t].(at := P.Drop);
    var s2 := P.Step(s1, t, 0);
    assert s2.threads[t] == s.threads[t].(at := P.FinalUnlock);
  }

  lemma ProtocolExits(s: P.State, t: P.Tid)
    requires P.Inv(s) && t in s.threads && s.threads[t].at == P.Decr
    ensures s.threads[t].key in s.locks
    ensures CountsOf(ThreeSteps(s, t)) == Exited(CountsOf(s), s.threads[t].key)
  {
    var key, s3 := s.threads[t].key, ThreeSteps(s, t);
    ExitAlone(s, t);
    forall k | k in s.locks && k != key ensures k in s3.locks && s3.locks[k] == s.locks[k] && s.locks[k] != s.locks[key] {}
    assert CountsOf(s)[key] == P.CellAt(s, s.locks[key]).refs;
    assert CountsOf(s3).Keys == Exited(CountsOf(s), key).Keys;
    assert forall k :: k in s3.locks ==> CountsOf(s3)[k] == Exited(CountsOf(s), key)[k];
  }
}
