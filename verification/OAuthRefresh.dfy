/** Concurrent refreshes of connected OAuth tokens against a provider that rotates refresh tokens
    (section 6 of RFC 6749), serialised by the keyed mutex.

    A refresh token is named by the order in which the provider issued it for the grant of a row, so
    the provider's current token of a row is the newest one; 0 stands for the empty cipher. Everything
    that can go wrong in a refresh is a move of its own: the re-read fails, the provider refuses, its
    answer to an accepted request never arrives, encryption or the update of the row fails. */
module OAuthRefresh {
  import opened Basics
  import K = KeyedMutexProtocol

  type Tid = K.Tid
  type Id = K.Key

  const REFRESH_WINDOW := 60

  datatype Ident = Ident(user: int, provider: int, account: string)

  datatype Row = Row(ident: Ident, refresh: int, expiresAt: Option<int>)

  /** Where a call of GetAccessToken stands. */
  datatype At =
    | Outside     // not inside refresh
    | Locking     // acquiring the lock of the row, then about to re-read the row
    | Presenting  // holds the lock, about to present `copy.refresh` to the provider
    | Storing     // holds the lock and the provider's answer
    | Leaving     // running the deferred unlock
  {
    predicate Holding() { Presenting? || Storing? }
  }

  /** The variables of one call: the locked id, the row it works on and its copy of it, and the answer. */
  datatype Call = Call(at: At, lockKey: Id, id: Id, copy: Row, reread: bool, newRefresh: int, newExpiry: Option<int>)

  /** One refresh request: the token presented, the stored and the provider's token at that moment,
      whether the row was read again under the lock, whether its token had been lost before, and whether
      its stored access token was still live. */
  datatype Request = Request(id: Id, presented: int, stored: int, current: int, reread: bool, lostBefore: bool, live: bool)

  datatype State = State(
    km: K.State,
    calls: map<Tid, Call>,
    rows: map<Id, Row>,
    provider: map<Id, int>,  // the newest refresh token issued for each row's grant
    clock: int,
    lost: set<Id>,           // rows whose newest refresh token was issued but never stored
    answered: map<Id, Tid>,  // rows between the provider's answer and the end of its storing, and whose call it is
    requests: seq<Request>)

  /** How the provider treats a request that presents its current token. */
  datatype Answer =
    | Refused
    | Kept(expiry: Option<int>)              // new access token only
    | Rotated(expiry: Option<int>)           // a new refresh token as well
    | RotatedUnheard                         // rotated, but no usable answer reaches the vault

  datatype Act =
    | Start(id: Id)
    | Lock
    | Reread(pick: Id)
    | RereadFails
    | DecryptFails
    | Present(answer: Answer)
    | Store
    | StoreFails
    | Unlock
    | Tick(d: nat)

  datatype Move = Move(t: Tid, act: Act)

  predicate Live(expiresAt: Option<int>, clock: int) {
    expiresAt.Some? && expiresAt.value > clock + REFRESH_WINDOW
  }

  /** FindOAuthToken's match; an empty account matches every account. */
  predicate Matches(row: Row, ident: Ident) {
    row.ident.user == ident.user && row.ident.provider == ident.provider
    && (ident.account == "" || row.ident.account == ident.account)
  }

  function SetCall(s: State, t: Tid, c: Call): State {
    s.(calls := s.calls[t := c])
  }

  function StartCall(s: State, t: Tid, id: Id): State
    requires t in s.calls
  {
    if !s.calls[t].at.Outside? || id !in s.rows then s
    else if s.rows[id].expiresAt.None? || Live(s.rows[id].expiresAt, s.clock) then s
    else if s.rows[id].refresh == 0 then s
    else SetCall(s.(km := K.Step(s.km, t, id)), t, Call(Locking, id, id, s.rows[id], false, 0, None))
  }

  function InCritical(s: State, t: Tid): bool {
    t in s.km.threads && s.km.threads[t].at.Critical?
  }

  function RereadRow(s: State, t: Tid, pick: Id): State
    requires t in s.calls
  {
    var me := s.calls[t];
    if !me.at.Locking? || !InCritical(s, t) || pick !in s.rows || !Matches(s.rows[pick], me.copy.ident) then s
    else if Live(s.rows[pick].expiresAt, s.clock) then SetCall(s, t, me.(at := Leaving))
    else SetCall(s, t, me.(at := Presenting, id := pick, copy := s.rows[pick], reread := true))
  }

  /** The request as the provider sees it. */
  function Seen(s: State, t: Tid): State
    requires t in s.calls && s.calls[t].id in s.provider && s.calls[t].id in s.rows
  {
    var me := s.calls[t];
    var row := s.rows[me.id];
    s.(requests := s.requests + [Request(me.id, me.copy.refresh, row.refresh, s.provider[me.id], me.reread,
                                         me.id in s.lost, Live(row.expiresAt, s.clock))])
  }

  /** What the provider's answer to its current token does. */
  function Answered(s: State, t: Tid, answer: Answer): State
    requires t in s.calls && s.calls[t].id in s.provider
  {
    var me := s.calls[t];
    var next := s.provider[me.id] + 1;
    match answer
    case Refused => SetCall(s, t, me.(at := Leaving))
    case Kept(expiry) =>
      SetCall(s.(answered := s.answered[me.id := t]), t, me.(at := Storing, newRefresh := 0, newExpiry := expiry))
    case Rotated(expiry) =>
      SetCall(s.(provider := s.provider[me.id := next], answered := s.answered[me.id := t]), t,
              me.(at := Storing, newRefresh := next, newExpiry := expiry))
    case RotatedUnheard =>
      SetCall(s.(provider := s.provider[me.id := next], lost := s.lost + {me.id}), t, me.(at := Leaving))
  }

  function PresentToken(s: State, t: Tid, answer: Answer): State
    requires t in s.calls
  {
    var me := s.calls[t];
    if !me.at.Presenting? || me.id !in s.provider || me.id !in s.rows then s
    else if me.copy.refresh != s.provider[me.id] then SetCall(Seen(s, t), t, me.(at := Leaving))
    else Answered(Seen(s, t), t, answer)
  }

  function StoreRow(s: State, t: Tid): State
    requires t in s.calls
  {
    var me := s.calls[t];
    if !me.at.Storing? || me.id !in s.rows then s
    else
      var refresh := if me.newRefresh != 0 then me.newRefresh else me.copy.refresh;
      SetCall(s.(rows := s.rows[me.id := me.copy.(refresh := refresh, expiresAt := me.newExpiry)],
                 answered := s.answered - {me.id}), t, me.(at := Leaving))
  }

  function Step(s: State, t: Tid, act: Act): State {
    if t !in s.calls then s else
    var me := s.calls[t];
    match act
    case Start(id) => StartCall(s, t, id)
    case Lock => if me.at.Locking? && !InCritical(s, t) then s.(km := K.Step(s.km, t, 0)) else s
    case Reread(pick) => RereadRow(s, t, pick)
    case RereadFails =>
      if me.at.Locking? && InCritical(s, t) then SetCall(s, t, me.(at := Presenting, reread := false)) else s
    case DecryptFails => if me.at.Presenting? then SetCall(s, t, me.(at := Leaving)) else s
    case Present(answer) => PresentToken(s, t, answer)
    case Store => StoreRow(s, t)
    case StoreFails =>
      if me.at.Storing?
      then SetCall(s.(lost := if me.newRefresh != 0 then s.lost + {me.id} else s.lost, answered := s.answered - {me.id}),
                   t, me.(at := Leaving))
      else s
    case Unlock =>
      if !me.at.Leaving? then s
      else
        var km := K.Step(s.km, t, 0);
        SetCall(s.(km := km), t, if t in km.threads && km.threads[t].at.Idle? then me.(at := Outside) else me)
    case Tick(d) => s.(clock := s.clock + d)
  }

  function Exec(s: State, moves: seq<Move>): State {
    if moves == [] then s
    else
      var last := moves[|moves| - 1];
      Step(Exec(s, moves[..|moves| - 1]), last.t, last.act)
  }

  ghost predicate Distinct(rows: map<Id, Row>) {
    forall i, j :: i in rows && j in rows && rows[i].ident == rows[j].ident ==> i == j
  }

  /** Rows as the connection flow leaves them: one per user, provider and account, the account never
      empty, and a row that has a refresh token has the provider's current one. */
  ghost predicate Connected(rows: map<Id, Row>, provider: map<Id, int>) {
    && Distinct(rows)
    && (forall i :: i in rows ==> rows[i].ident.account != "" && i in provider && provider[i] > 0
                                  && (rows[i].refresh == 0 || rows[i].refresh == provider[i]))
  }

  function Init(tids: set<Tid>, rows: map<Id, Row>, provider: map<Id, int>, clock: int): State {
    State(K.Init(tids), map t | t in tids :: Call(Outside, 0, 0, Row(Ident(0, 0, ""), 0, None), false, 0, None),
          rows, provider, clock, {}, map[], [])
  }

  // ---- the invariant ----

  /** A call's position agrees with its thread's position inside the keyed mutex. */
  predicate InStepAt(c: Call, lk: K.Thread) {
    match c.at
    case Outside => lk.at.Idle?
    case Locking => (lk.at.MapLock? || lk.at.Lookup? || lk.at.Incr? || lk.at.MapUnlock? || lk.at.InnerLock? || lk.at.Critical?)
                    && lk.key == c.lockKey
    case Presenting => lk.at.Critical? && lk.key == c.lockKey
    case Storing => lk.at.Critical? && lk.key == c.lockKey
    case Leaving => lk.at.Critical? || lk.at.Relock? || lk.at.Decr? || lk.at.Drop? || lk.at.FinalUnlock?
  }

  ghost predicate InStep(s: State) {
    && s.km.threads.Keys == s.calls.Keys
    && forall t :: t in s.calls ==> InStepAt(s.calls[t], s.km.threads[t])
  }

  /** A row between two refreshes is in step with the provider exactly when its token was not lost. */
  predicate RowOk(id: Id, row: Row, provider: map<Id, int>, lost: set<Id>, answered: map<Id, Tid>) {
    && row.ident.account != "" && id in provider && provider[id] > 0 && 0 <= row.refresh <= provider[id]
    && (id in lost ==> row.refresh < provider[id])
    && (row.refresh != 0 && id !in answered && id !in lost ==> row.refresh == provider[id])
  }

  /** A call works on the row it locked and found its token due; its copy is never ahead of the row; a
      copy taken under the lock is the row; an answer is the provider's latest word. */
  predicate CallOk(t: Tid, c: Call, clock: int,
                   rows: map<Id, Row>, provider: map<Id, int>, lost: set<Id>, answered: map<Id, Tid>) {
    c.at.Outside? ||
    (&& c.id == c.lockKey && c.id in rows && c.id in provider && c.copy.ident == rows[c.id].ident
     && (c.at.Locking? ==> !Live(c.copy.expiresAt, clock))
     && 0 < c.copy.refresh <= rows[c.id].refresh
     && (c.at.Presenting? ==> !Live(c.copy.expiresAt, clock) && (c.reread ==> c.copy == rows[c.id]))
     && (c.at.Storing? ==>
           && c.id !in lost && c.id in answered && answered[c.id] == t
           && (if c.newRefresh != 0 then c.newRefresh == provider[c.id] && rows[c.id].refresh < provider[c.id]
               else c.copy.refresh == provider[c.id] && rows[c.id].refresh == provider[c.id])))
  }

  ghost predicate AnswersHeld(s: State) {
    forall id :: id in s.answered ==>
      s.answered[id] in s.calls && s.calls[s.answered[id]].at.Storing? && s.calls[s.answered[id]].id == id
  }

  predicate Sound(r: Request) {
    && (r.presented == r.current <==> r.presented == r.stored && !r.lostBefore)
    && (r.reread ==> r.presented == r.stored && !r.live)
  }

  ghost predicate Locks(s: State) {
    K.Inv(s.km) && InStep(s)
  }

  ghost predicate Data(s: State) {
    && Distinct(s.rows)
    && (forall id :: id in s.rows ==> RowOk(id, s.rows[id], s.provider, s.lost, s.answered))
    && (forall t :: t in s.calls ==> CallOk(t, s.calls[t], s.clock, s.rows, s.provider, s.lost, s.answered))
    && AnswersHeld(s)
    && (forall i :: 0 <= i < |s.requests| ==> Sound(s.requests[i]))
  }

  ghost predicate Inv(s: State) {
    Locks(s) && Data(s)
  }

  lemma InitInv(tids: set<Tid>, rows: map<Id, Row>, provider: map<Id, int>, clock: int)
    requires Connected(rows, provider)
    ensures Inv(Init(tids, rows, provider, clock))
  {}

  // ---- the lock half of the invariant ----

  /** The lock at work: two calls holding the same row are one call. */
  lemma OneHolder(s: State, t: Tid)
    requires Locks(s) && t in s.calls && s.calls[t].at.Holding() && IdsLocked(s)
    ensures Sole(s, t)
  {
    forall u | u in s.calls && s.calls[u].at.Holding() && s.calls[u].id == s.calls[t].id ensures u == t {
      K.OneCriticalPerKey(s.km, t, u);
    }
  }

  /** A call that holds a row holds the lock of that row. */
  ghost predicate IdsLocked(s: State) {
    forall t :: t in s.calls && s.calls[t].at.Holding() ==> s.calls[t].id == s.calls[t].lockKey
  }

  lemma DataLocksIds(s: State)
    requires Data(s)
    ensures IdsLocked(s)
  {
    forall t | t in s.calls ensures s.calls[t].at.Holding() ==> s.calls[t].id == s.calls[t].lockKey {
      assert CallOk(t, s.calls[t], s.clock, s.rows, s.provider, s.lost, s.answered);
    }
  }

  ghost predicate Sole(s: State, t: Tid) {
    t in s.calls && forall u :: u in s.calls && s.calls[u].at.Holding() && s.calls[u].id == s.calls[t].id ==> u == t
  }

  /** A call moves on while its thread stays where it is. */
  lemma CallMoveKeepsLocks(s: State, s': State, t: Tid)
    requires Locks(s) && t in s.calls && t in s'.calls && s'.km == s.km && s'.calls == s.calls[t := s'.calls[t]]
    requires InStepAt(s'.calls[t], s.km.threads[t])
    ensures Locks(s')
  {}

  lemma StepMovesOneThread(km: K.State, t: Tid, key: Id)
    requires t in km.threads
    ensures var km' := K.Step(km, t, key); t in km'.threads && km'.threads == km.threads[t := km'.threads[t]]
  {
    assert km.threads[t := km.threads[t]] == km.threads;
  }

  /** One statement of the keyed mutex, with the call still in step afterwards. */
  lemma MutexKeepsLocks(s: State, t: Tid, key: Id, c: Call)
    requires Locks(s) && t in s.calls && t in K.Step(s.km, t, key).threads && InStepAt(c, K.Step(s.km, t, key).threads[t])
    ensures Locks(s.(km := K.Step(s.km, t, key), calls := s.calls[t := c]))
  {
    K.StepKeepsInv(s.km, t, key);
    StepMovesOneThread(s.km, t, key);
  }

  // ---- the data half ----

  lemma AnswerHolder(s: State, id: Id)
    requires AnswersHeld(s) && id in s.answered
    ensures var u := s.answered[id]; u in s.calls && s.calls[u].at.Storing? && s.calls[u].id == id
  {}

  /** No answer is under way for a row whose holder is still to present its token. */
  lemma NoAnswerYet(s: State, t: Tid)
    requires Data(s) && Sole(s, t) && !s.calls[t].at.Storing?
    ensures s.calls[t].id !in s.answered
  {
    if s.calls[t].id in s.answered { AnswerHolder(s, s.calls[t].id); }
  }

  lemma RowTokenIsOk(s: State, id: Id)
    requires Data(s) && id in s.rows
    ensures RowOk(id, s.rows[id], s.provider, s.lost, s.answered)
    ensures id in s.answered ==> id !in s.lost
  {
    if id in s.answered {
      var u := s.answered[id];
      AnswerHolder(s, id);
      assert CallOk(u, s.calls[u], s.clock, s.rows, s.provider, s.lost, s.answered);
    }
  }

  /** A call that has no answer changes its position or its copy. */
  lemma CallMoveKeepsData(s: State, t: Tid, c: Call)
    requires Data(s) && t in s.calls && !s.calls[t].at.Storing? && !c.at.Storing?
    requires CallOk(t, c, s.clock, s.rows, s.provider, s.lost, s.answered)
    ensures Data(SetCall(s, t, c))
  {}

  lemma StartKeepsInv(s: State, t: Tid, id: Id)
    requires Inv(s) && t in s.calls
    ensures Inv(StartCall(s, t, id))
  {
    if StartCall(s, t, id) != s {
      var c := Call(Locking, id, id, s.rows[id], false, 0, None);
      MutexKeepsLocks(s, t, id, c);
      RowTokenIsOk(s, id);
      CallMoveKeepsData(s, t, c);
    }
  }

  lemma LockKeepsInv(s: State, t: Tid)
    requires Inv(s) && t in s.calls
    ensures Inv(Step(s, t, Lock))
  {
    if s.calls[t].at.Locking? && !InCritical(s, t) {
      MutexKeepsLocks(s, t, 0, s.calls[t]);
      assert s.calls[t := s.calls[t]] == s.calls;
    }
  }

  /** A call that holds the lock may always go on to unlock. */
  lemma LeaveKeepsInv(s: State, t: Tid)
    requires Inv(s) && t in s.calls && InCritical(s, t) && !s.calls[t].at.Storing? && !s.calls[t].at.Outside?
    ensures Inv(SetCall(s, t, s.calls[t].(at := Leaving)))
  {
    var c := s.calls[t].(at := Leaving);
    CallMoveKeepsLocks(s, SetCall(s, t, c), t);
    assert CallOk(t, s.calls[t], s.clock, s.rows, s.provider, s.lost, s.answered);
    CallMoveKeepsData(s, t, c);
  }

  /** Reading the row under the lock yields the locked row. */
  lemma RereadFindsOwnRow(s: State, t: Tid, pick: Id)
    requires Data(s) && t in s.calls && s.calls[t].at.Locking? && pick in s.rows && Matches(s.rows[pick], s.calls[t].copy.ident)
    ensures pick == s.calls[t].lockKey && pick == s.calls[t].id
  {
    assert CallOk(t, s.calls[t], s.clock, s.rows, s.provider, s.lost, s.answered);
  }

  lemma RereadKeepsInv(s: State, t: Tid, pick: Id)
    requires Inv(s) && t in s.calls
    ensures Inv(RereadRow(s, t, pick))
  {
    var me := s.calls[t];
    if me.at.Locking? && InCritical(s, t) && pick in s.rows && Matches(s.rows[pick], me.copy.ident) {
      if Live(s.rows[pick].expiresAt, s.clock) {
        LeaveKeepsInv(s, t);
      } else {
        RereadFindsOwnRow(s, t, pick);
        RefetchKeepsInv(s, t);
      }
    }
  }

  lemma RefetchKeepsInv(s: State, t: Tid)
    requires Inv(s) && t in s.calls && InCritical(s, t) && s.calls[t].at.Locking?
    requires s.calls[t].id in s.rows && !Live(s.rows[s.calls[t].id].expiresAt, s.clock)
    ensures Inv(SetCall(s, t, s.calls[t].(at := Presenting, copy := s.rows[s.calls[t].id], reread := true)))
  {
    var c := s.calls[t].(at := Presenting, copy := s.rows[s.calls[t].id], reread := true);
    assert CallOk(t, s.calls[t], s.clock, s.rows, s.provider, s.lost, s.answered);
    CallMoveKeepsLocks(s, SetCall(s, t, c), t);
    CallMoveKeepsData(s, t, c);
  }

  lemma RereadFailsKeepsInv(s: State, t: Tid)
    requires Inv(s) && t in s.calls
    ensures Inv(Step(s, t, RereadFails))
  {
    if s.calls[t].at.Locking? && InCritical(s, t) {
      var c := s.calls[t].(at := Presenting, reread := false);
      assert CallOk(t, s.calls[t], s.clock, s.rows, s.provider, s.lost, s.answered);
      CallMoveKeepsLocks(s, SetCall(s, t, c), t);
      CallMoveKeepsData(s, t, c);
    }
  }

  /** What the provider sees is the row's token, current unless it was lost, provided the row was read again. */
  lemma SeenIsSound(s: State, t: Tid)
    requires Data(s) && t in s.calls && s.calls[t].at.Presenting? && Sole(s, t)
    ensures var id := s.calls[t].id; id in s.provider && id in s.rows && id !in s.answered && Data(Seen(s, t))
  {
    var me := s.calls[t];
    assert CallOk(t, me, s.clock, s.rows, s.provider, s.lost, s.answered);
    NoAnswerYet(s, t);
    RowTokenIsOk(s, me.id);
    assert forall i :: 0 <= i < |Seen(s, t).requests| ==> Sound(Seen(s, t).requests[i]);
  }

  /** Presents the provider's current token, which is the row's then. */
  ghost predicate PresentsCurrent(s: State, t: Tid) {
    && Sole(s, t) && s.calls[t].at.Presenting? && s.calls[t].id in s.provider && s.calls[t].id !in s.answered
    && s.calls[t].copy.refresh == s.provider[s.calls[t].id]
  }

  lemma RowsAfterAnswer(s: State, t: Tid, answer: Answer)
    requires Data(s) && PresentsCurrent(s, t)
    ensures var s' := Answered(s, t, answer);
            forall id :: id in s'.rows ==> RowOk(id, s'.rows[id], s'.provider, s'.lost, s'.answered)
  {
    assert CallOk(t, s.calls[t], s.clock, s.rows, s.provider, s.lost, s.answered);
    forall id | id in s.rows ensures
      var s' := Answered(s, t, answer); RowOk(id, s'.rows[id], s'.provider, s'.lost, s'.answered)
    {
      assert RowOk(id, s.rows[id], s.provider, s.lost, s.answered);
    }
  }

  lemma CallsAfterAnswer(s: State, t: Tid, answer: Answer)
    requires Data(s) && PresentsCurrent(s, t)
    ensures var s' := Answered(s, t, answer);
            forall u :: u in s'.calls ==> CallOk(u, s'.calls[u], s'.clock, s'.rows, s'.provider, s'.lost, s'.answered)
  {
    RowTokenIsOk(s, s.calls[t].id);
    forall u | u in s.calls ensures
      var s' := Answered(s, t, answer); CallOk(u, s'.calls[u], s'.clock, s'.rows, s'.provider, s'.lost, s'.answered)
    {
      assert CallOk(u, s.calls[u], s.clock, s.rows, s.provider, s.lost, s.answered);
    }
  }

  lemma AnswersAfterAnswer(s: State, t: Tid, answer: Answer)
    requires Data(s) && PresentsCurrent(s, t)
    ensures AnswersHeld(Answered(s, t, answer))
  {
    forall id | id in s.answered ensures s.answered[id] != t { AnswerHolder(s, id); }
  }

  lemma AnsweredKeepsInv(s: State, t: Tid, answer: Answer)
    requires Inv(s) && PresentsCurrent(s, t)
    ensures Inv(Answered(s, t, answer))
  {
    CallMoveKeepsLocks(s, Answered(s, t, answer), t);
    RowsAfterAnswer(s, t, answer);
    CallsAfterAnswer(s, t, answer);
    AnswersAfterAnswer(s, t, answer);
  }

  lemma PresentKeepsInv(s: State, t: Tid, answer: Answer)
    requires Inv(s) && t in s.calls
    ensures Inv(PresentToken(s, t, answer))
  {
    if s.calls[t].at.Presenting? {
      DataLocksIds(s);
      OneHolder(s, t);
      SeenIsSound(s, t);
      var seen := Seen(s, t);
      if s.calls[t].copy.refresh != s.provider[s.calls[t].id] {
        LeaveKeepsInv(seen, t);
      } else {
        AnsweredKeepsInv(seen, t, answer);
      }
    }
  }

  /** The end of a store, with the row written or with its new token lost. */
  function Stored(s: State, t: Tid, ok: bool): State
    requires t in s.calls
  {
    if ok then StoreRow(s, t) else Step(s, t, StoreFails)
  }

  ghost predicate Stores(s: State, t: Tid) {
    Sole(s, t) && s.calls[t].at.Storing?
  }

  lemma RowsAfterStore(s: State, t: Tid, ok: bool)
    requires Data(s) && Stores(s, t)
    ensures var s' := Stored(s, t, ok);
            Distinct(s'.rows) && forall id :: id in s'.rows ==> RowOk(id, s'.rows[id], s'.provider, s'.lost, s'.answered)
  {
    assert CallOk(t, s.calls[t], s.clock, s.rows, s.provider, s.lost, s.answered);
    forall id | id in s.rows ensures
      var s' := Stored(s, t, ok); id in s'.rows && RowOk(id, s'.rows[id], s'.provider, s'.lost, s'.answered)
    {
      assert RowOk(id, s.rows[id], s.provider, s.lost, s.answered);
    }
  }

  lemma CallsAfterStore(s: State, t: Tid, ok: bool)
    requires Data(s) && Stores(s, t)
    ensures var s' := Stored(s, t, ok);
            forall u :: u in s'.calls ==> CallOk(u, s'.calls[u], s'.clock, s'.rows, s'.provider, s'.lost, s'.answered)
  {
    assert CallOk(t, s.calls[t], s.clock, s.rows, s.provider, s.lost, s.answered);
    forall u | u in s.calls ensures
      var s' := Stored(s, t, ok); CallOk(u, s'.calls[u], s'.clock, s'.rows, s'.provider, s'.lost, s'.answered)
    {
      assert CallOk(u, s.calls[u], s.clock, s.rows, s.provider, s.lost, s.answered);
    }
  }

  lemma AnswersAfterStore(s: State, t: Tid, ok: bool)
    requires Data(s) && Stores(s, t)
    ensures AnswersHeld(Stored(s, t, ok))
  {
    assert CallOk(t, s.calls[t], s.clock, s.rows, s.provider, s.lost, s.answered);
    forall id | id in s.answered && id != s.calls[t].id ensures s.answered[id] != t { AnswerHolder(s, id); }
  }

  lemma StoredKeepsInv(s: State, t: Tid, ok: bool)
    requires Inv(s) && t in s.calls
    ensures Inv(Stored(s, t, ok))
  {
    if s.calls[t].at.Storing? {
      DataLocksIds(s);
      OneHolder(s, t);
      assert CallOk(t, s.calls[t], s.clock, s.rows, s.provider, s.lost, s.answered);
      CallMoveKeepsLocks(s, Stored(s, t, ok), t);
      RowsAfterStore(s, t, ok);
      CallsAfterStore(s, t, ok);
      AnswersAfterStore(s, t, ok);
    }
  }

  lemma UnlockKeepsInv(s: State, t: Tid)
    requires Inv(s) && t in s.calls
    ensures Inv(Step(s, t, Unlock))
  {
    if s.calls[t].at.Leaving? {
      var km := K.Step(s.km, t, 0);
      StepMovesOneThread(s.km, t, 0);
      var c := if km.threads[t].at.Idle? then s.calls[t].(at := Outside) else s.calls[t];
      MutexKeepsLocks(s, t, 0, c);
      assert CallOk(t, s.calls[t], s.clock, s.rows, s.provider, s.lost, s.answered);
      CallMoveKeepsData(s, t, c);
    }
  }

  lemma TickKeepsInv(s: State, d: nat)
    requires Inv(s)
    ensures Inv(s.(clock := s.clock + d))
  {
    forall t | t in s.calls ensures CallOk(t, s.calls[t], s.clock + d, s.rows, s.provider, s.lost, s.answered) {
      assert CallOk(t, s.calls[t], s.clock, s.rows, s.provider, s.lost, s.answered);
    }
  }

  lemma StepKeepsInv(s: State, t: Tid, act: Act)
    requires Inv(s)
    ensures Inv(Step(s, t, act))
  {
    if t in s.calls {
      match act
      case Start(id) => StartKeepsInv(s, t, id);
      case Lock => LockKeepsInv(s, t);
      case Reread(pick) => RereadKeepsInv(s, t, pick);
      case RereadFails => RereadFailsKeepsInv(s, t);
      case DecryptFails => if s.calls[t].at.Presenting? { LeaveKeepsInv(s, t); }
      case Present(answer) => PresentKeepsInv(s, t, answer);
      case Store => StoredKeepsInv(s, t, true);
      case StoreFails => StoredKeepsInv(s, t, false);
      case Unlock => UnlockKeepsInv(s, t);
      case Tick(d) => TickKeepsInv(s, d);
    }
  }

  lemma {:induction false} ExecKeepsInv(s: State, moves: seq<Move>)
    requires Inv(s)
    ensures Inv(Exec(s, moves))
  {
    if moves != [] {
      var last := moves[|moves| - 1];
      ExecKeepsInv(s, moves[..|moves| - 1]);
      StepKeepsInv(Exec(s, moves[..|moves| - 1]), last.t, last.act);
    }
  }

  lemma ReachableInv(tids: set<Tid>, rows: map<Id, Row>, provider: map<Id, int>, clock: int, moves: seq<Move>)
    requires Connected(rows, provider)
    ensures Inv(Exec(Init(tids, rows, provider, clock), moves))
  {
    InitInv(tids, rows, provider, clock);
    ExecKeepsInv(Init(tids, rows, provider, clock), moves);
  }

  // ---- what the vault relies on ----

  /** Between refreshes the stored refresh token is the provider's current one exactly when the row's
      newest token was not lost, in every interleaving and whatever failed. */
  lemma StoredTokenIsCurrent(tids: set<Tid>, rows: map<Id, Row>, provider: map<Id, int>, clock: int, moves: seq<Move>, id: Id)
    requires Connected(rows, provider)
    requires var s := Exec(Init(tids, rows, provider, clock), moves);
             id in s.rows && s.rows[id].refresh != 0
             && forall t :: t in s.calls && s.calls[t].at.Storing? ==> s.calls[t].id != id
    ensures var s := Exec(Init(tids, rows, provider, clock), moves);
            id in s.provider && (s.rows[id].refresh == s.provider[id] <==> id !in s.lost)
  {
    var s := Exec(Init(tids, rows, provider, clock), moves);
    ReachableInv(tids, rows, provider, clock, moves);
    if id in s.answered { AnswerHolder(s, id); }
    assert RowOk(id, s.rows[id], s.provider, s.lost, s.answered);
  }

  /** A request presents the provider's current token exactly when it presents the stored one and that
      one was not lost; a request after a successful re-read always presents the stored one, and is made
      only when the stored access token is no longer live. */
  lemma EveryRequestIsSound(tids: set<Tid>, rows: map<Id, Row>, provider: map<Id, int>, clock: int, moves: seq<Move>, i: nat)
    requires Connected(rows, provider)
    requires i < |Exec(Init(tids, rows, provider, clock), moves).requests|
    ensures var r := Exec(Init(tids, rows, provider, clock), moves).requests[i];
            && (r.presented == r.current <==> r.presented == r.stored && !r.lostBefore)
            && (r.reread ==> r.presented == r.stored && !r.live)
  {
    ReachableInv(tids, rows, provider, clock, moves);
    assert Sound(Exec(Init(tids, rows, provider, clock), moves).requests[i]);
  }

  /** At most one call per row is between its re-read and the end of its store. */
  lemma RefreshesOfOneRowDoNotOverlap(tids: set<Tid>, rows: map<Id, Row>, provider: map<Id, int>, clock: int,
                                      moves: seq<Move>, t: Tid, u: Tid)
    requires Connected(rows, provider)
    requires var s := Exec(Init(tids, rows, provider, clock), moves);
             t in s.calls && u in s.calls && s.calls[t].at.Holding() && s.calls[u].at.Holding() && s.calls[t].id == s.calls[u].id
    ensures t == u
  {
    ReachableInv(tids, rows, provider, clock, moves);
    DataLocksIds(Exec(Init(tids, rows, provider, clock), moves));
    OneHolder(Exec(Init(tids, rows, provider, clock), moves), t);
  }

  predicate Faultless(act: Act) {
    act != RereadFails && act != StoreFails && act != Present(RotatedUnheard)
  }

  predicate Unharmed(s: State)
  {
    s.lost == {}
    && (forall t :: t in s.calls && s.calls[t].at.Presenting? ==> s.calls[t].reread)
    && (forall i :: 0 <= i < |s.requests| ==> s.requests[i].reread && !s.requests[i].lostBefore)
  }

  lemma {:induction false} FaultlessIsUnharmed(s: State, moves: seq<Move>)
    requires Unharmed(s) && forall i :: 0 <= i < |moves| ==> Faultless(moves[i].act)
    ensures Unharmed(Exec(s, moves))
  {
    if moves != [] {
      FaultlessIsUnharmed(s, moves[..|moves| - 1]);
      FaultlessStep(Exec(s, moves[..|moves| - 1]), moves[|moves| - 1]);
    }
  }

  lemma FaultlessStep(s: State, move: Move)
    requires Unharmed(s) && Faultless(move.act)
    ensures Unharmed(Step(s, move.t, move.act))
  {}

  /** As long as re-reads and updates succeed and answers arrive, no refresh presents a stale token. */
  lemma NoStaleRequest(tids: set<Tid>, rows: map<Id, Row>, provider: map<Id, int>, clock: int, moves: seq<Move>, i: nat)
    requires Connected(rows, provider)
    requires forall k :: 0 <= k < |moves| ==> Faultless(moves[k].act)
    requires i < |Exec(Init(tids, rows, provider, clock), moves).requests|
    ensures var r := Exec(Init(tids, rows, provider, clock), moves).requests[i]; r.presented == r.current
  {
    EveryRequestIsSound(tids, rows, provider, clock, moves, i);
    FaultlessIsUnharmed(Init(tids, rows, provider, clock), moves);
  }

  // ---- what the proviso is for ----

  lemma Then(s0: State, moves: seq<Move>, t: Tid, act: Act) returns (more: seq<Move>)
    ensures Exec(s0, more) == Step(Exec(s0, moves), t, act)
  {
    more := moves + [Move(t, act)];
    assert more[..|more| - 1] == moves;
  }

  /** The keyed mutex after `t` alone has taken the lock of its key, nobody else using that key. */
  function Taken(km: K.State, t: Tid): K.State
    requires t in km.threads
  {
    var key := km.threads[t].key;
    K.State(None, km.locks[key := km.next], km.cells[km.next := K.Cell(1, Some(t))], km.next + 1,
            km.threads[t := K.Thread(K.Critical, key, km.next)])
  }

  lemma FiveStatements(km: K.State, t: Tid)
    requires t in km.threads && km.threads[t].at.MapLock? && km.mapOwner.None? && km.threads[t].key !in km.locks
    ensures var km1 := K.Step(km, t, 0); var km2 := K.Step(km1, t, 0); var km3 := K.Step(km2, t, 0); var km4 := K.Step(km3, t, 0);
            && t in km1.threads && t in km2.threads && t in km3.threads && t in km4.threads
            && !km1.threads[t].at.Critical? && !km2.threads[t].at.Critical? && !km3.threads[t].at.Critical?
            && !km4.threads[t].at.Critical? && K.Step(km4, t, 0) == Taken(km, t)
  {
    var key, m := km.threads[t].key, km.next;
    var km1 := K.Step(km, t, 0);
    assert km1 == km.(mapOwner := Some(t), threads := km.threads[t := K.Thread(K.Lookup, key, km.threads[t].m)]);
    var km2 := K.Step(km1, t, 0);
    assert km2 == km1.(locks := km.locks[key := m], cells := km.cells[m := K.Cell(0, None)], next := m + 1,
                       threads := km.threads[t := K.Thread(K.Incr, key, m)]);
    var km3 := K.Step(km2, t, 0);
    assert km3 == km2.(cells := km.cells[m := K.Cell(1, None)], threads := km.threads[t := K.Thread(K.MapUnlock, key, m)]);
    var km4 := K.Step(km3, t, 0);
    assert km4 == km3.(mapOwner := None, threads := km.threads[t := K.Thread(K.InnerLock, key, m)]);
  }

  lemma LockAlone(s0: State, moves: seq<Move>, t: Tid) returns (more: seq<Move>)
    requires var s := Exec(s0, moves);
             && t in s.calls && s.calls[t].at.Locking? && t in s.km.threads && s.km.threads[t].at.MapLock?
             && s.km.mapOwner.None? && s.km.threads[t].key !in s.km.locks
    ensures var s := Exec(s0, moves); Exec(s0, more) == s.(km := Taken(s.km, t))
  {
    FiveStatements(Exec(s0, moves).km, t);
    more := LockOnce(s0, moves, t);
    more := LockOnce(s0, more, t);
    more := LockOnce(s0, more, t);
    more := LockOnce(s0, more, t);
    more := LockOnce(s0, more, t);
  }

  lemma LockOnce(s0: State, moves: seq<Move>, t: Tid) returns (more: seq<Move>)
    requires var s := Exec(s0, moves); t in s.calls && s.calls[t].at.Locking? && !InCritical(s, t)
    ensures var s := Exec(s0, moves); Exec(s0, more) == s.(km := K.Step(s.km, t, 0))
  {
    more := Then(s0, moves, t, Lock);
  }

  /** The keyed mutex after the only user of a key has released it. */
  function Released(km: K.State, t: Tid): K.State
    requires t in km.threads
  {
    var me := km.threads[t];
    km.(locks := km.locks - {me.key}, cells := km.cells[me.m := K.Cell(0, None)],
        threads := km.threads[t := me.(at := K.Idle)])
  }

  lemma FiveMoreStatements(km: K.State, t: Tid)
    requires t in km.threads && km.threads[t].at.Critical? && km.mapOwner.None?
    requires K.CellAt(km, km.threads[t].m) == K.Cell(1, Some(t))
    ensures var km1 := K.Step(km, t, 0); var km2 := K.Step(km1, t, 0); var km3 := K.Step(km2, t, 0); var km4 := K.Step(km3, t, 0);
            && t in km1.threads && t in km2.threads && t in km3.threads && t in km4.threads
            && !km1.threads[t].at.Idle? && !km2.threads[t].at.Idle? && !km3.threads[t].at.Idle?
            && !km4.threads[t].at.Idle? && K.Step(km4, t, 0) == Released(km, t)
  {
    var me := km.threads[t];
    var km1 := K.Step(km, t, 0);
    assert km1 == km.(cells := km.cells[me.m := K.Cell(1, None)], threads := km.threads[t := me.(at := K.Relock)]);
    var km2 := K.Step(km1, t, 0);
    assert km2 == km1.(mapOwner := Some(t), threads := km.threads[t := me.(at := K.Decr)]);
    var km3 := K.Step(km2, t, 0);
    assert km3 == km2.(cells := km.cells[me.m := K.Cell(0, None)], threads := km.threads[t := me.(at := K.Drop)]);
    var km4 := K.Step(km3, t, 0);
    assert km4 == km3.(locks := km.locks - {me.key}, threads := km.threads[t := me.(at := K.FinalUnlock)]);
  }

  lemma UnlockOnce(s0: State, moves: seq<Move>, t: Tid) returns (more: seq<Move>)
    requires var s := Exec(s0, moves);
             t in s.calls && s.calls[t].at.Leaving? && t in K.Step(s.km, t, 0).threads && !K.Step(s.km, t, 0).threads[t].at.Idle?
    ensures var s := Exec(s0, moves); Exec(s0, more) == s.(km := K.Step(s.km, t, 0))
  {
    more := Then(s0, moves, t, Unlock);
    assert Exec(s0, moves).calls[t := Exec(s0, moves).calls[t]] == Exec(s0, moves).calls;
  }

  lemma UnlockAlone(s0: State, moves: seq<Move>, t: Tid) returns (more: seq<Move>)
    requires var s := Exec(s0, moves);
             && t in s.calls && s.calls[t].at.Leaving? && t in s.km.threads && s.km.threads[t].at.Critical?
             && s.km.mapOwner.None? && K.CellAt(s.km, s.km.threads[t].m) == K.Cell(1, Some(t))
    ensures var s := Exec(s0, moves);
            Exec(s0, more) == SetCall(s.(km := Released(s.km, t)), t, s.calls[t].(at := Outside))
  {
    FiveMoreStatements(Exec(s0, moves).km, t);
    more := UnlockOnce(s0, moves, t);
    more := UnlockOnce(s0, more, t);
    more := UnlockOnce(s0, more, t);
    more := UnlockOnce(s0, more, t);
    more := UnlockLast(s0, more, t);
  }

  lemma UnlockLast(s0: State, moves: seq<Move>, t: Tid) returns (more: seq<Move>)
    requires var s := Exec(s0, moves);
             t in s.calls && s.calls[t].at.Leaving? && t in K.Step(s.km, t, 0).threads && K.Step(s.km, t, 0).threads[t].at.Idle?
    ensures var s := Exec(s0, moves);
            Exec(s0, more) == SetCall(s.(km := K.Step(s.km, t, 0)), t, s.calls[t].(at := Outside))
  {
    more := Then(s0, moves, t, Unlock);
  }

  const EXPIRED_ROW := Row(Ident(1, 1, "a"), 1, Some(0))
  const TWO_CALLERS := Init({1, 2}, map[7 := EXPIRED_ROW], map[7 := 1], 0)

  const SECOND_CALL := Call(Locking, 7, 7, EXPIRED_ROW, false, 0, None)

  lemma BothCallersStart() returns (moves: seq<Move>)
    ensures var s := Exec(TWO_CALLERS, moves);
            && s == TWO_CALLERS.(km := s.km, calls := map[1 := SECOND_CALL, 2 := SECOND_CALL])
            && s.km == TWO_CALLERS.km.(threads := map[1 := K.Thread(K.MapLock, 7, 0), 2 := K.Thread(K.MapLock, 7, 0)])
  {
    moves := Then(TWO_CALLERS, [], 2, Start(7));
    assert Exec(TWO_CALLERS, []) == TWO_CALLERS;
    moves := Then(TWO_CALLERS, moves, 1, Start(7));
  }

  /** Both callers have read the expired row; caller 1 holds its lock. */
  lemma FirstCallerLocks() returns (moves: seq<Move>)
    ensures var s := Exec(TWO_CALLERS, moves);
            && s == TWO_CALLERS.(km := s.km, calls := map[1 := SECOND_CALL, 2 := SECOND_CALL])
            && s.km.threads == map[1 := K.Thread(K.Critical, 7, 0), 2 := K.Thread(K.MapLock, 7, 0)]
            && s.km.mapOwner.None? && s.km.locks == map[7 := 0] && K.CellAt(s.km, 0) == K.Cell(1, Some(1))
  {
    moves := BothCallersStart();
    moves := LockAlone(TWO_CALLERS, moves, 1);
  }

  /** Caller 1 has the provider's new token in hand. */
  lemma FirstCallerRotates() returns (moves: seq<Move>)
    ensures var s := Exec(TWO_CALLERS, moves);
            && s.rows == map[7 := EXPIRED_ROW] && s.provider == map[7 := 2] && s.lost == {} && |s.requests| == 1
            && s.calls == map[1 := Call(Storing, 7, 7, EXPIRED_ROW, true, 2, Some(1000)), 2 := SECOND_CALL]
            && s.km.threads == map[1 := K.Thread(K.Critical, 7, 0), 2 := K.Thread(K.MapLock, 7, 0)]
            && s.km.mapOwner.None? && s.km.locks == map[7 := 0] && K.CellAt(s.km, 0) == K.Cell(1, Some(1))
  {
    moves := FirstCallerLocks();
    moves := Then(TWO_CALLERS, moves, 1, Reread(7));
    assert Exec(TWO_CALLERS, moves).calls == map[1 := SECOND_CALL.(at := Presenting, reread := true), 2 := SECOND_CALL];
    moves := Then(TWO_CALLERS, moves, 1, Present(Rotated(Some(1000))));
  }

  /** Caller 1 has stored or lost the new token; caller 2 still has the old row. */
  lemma FirstCallerStores(store: Act) returns (moves: seq<Move>)
    requires store == Store || store == StoreFails
    ensures var s := Exec(TWO_CALLERS, moves);
            && s.rows == map[7 := if store == Store then Row(Ident(1, 1, "a"), 2, Some(1000)) else EXPIRED_ROW]
            && s.provider == map[7 := 2] && s.lost == (if store == Store then {} else {7}) && |s.requests| == 1
            && s.calls.Keys == {1, 2} && s.calls[1].at.Leaving? && s.calls[2] == SECOND_CALL
            && s.km.threads == map[1 := K.Thread(K.Critical, 7, 0), 2 := K.Thread(K.MapLock, 7, 0)]
            && s.km.mapOwner.None? && s.km.locks == map[7 := 0] && K.CellAt(s.km, 0) == K.Cell(1, Some(1))
  {
    moves := FirstCallerRotates();
    moves := Then(TWO_CALLERS, moves, 1, store);
  }

  lemma SecondCallerLocks() returns (moves: seq<Move>)
    ensures var s := Exec(TWO_CALLERS, moves);
            && s.rows.Keys == {7} && s.provider == map[7 := 2] && s.lost == {} && |s.requests| == 1
            && 2 in s.calls && s.calls[2] == SECOND_CALL && InCritical(s, 2)
  {
    moves := FirstCallerStores(Store);
    moves := UnlockAlone(TWO_CALLERS, moves, 1);
    moves := LockAlone(TWO_CALLERS, moves, 2);
  }

  /** When the re-read fails, refresh goes on with the row it was given and can present a token that a
      sibling has already used up. */
  lemma FailedRereadPresentsStaleToken() returns (moves: seq<Move>)
    ensures Connected(TWO_CALLERS.rows, TWO_CALLERS.provider)
    ensures var s := Exec(TWO_CALLERS, moves);
            |s.requests| == 2 && s.requests[1].presented == 1 && s.requests[1].current == 2 && s.lost == {}
  {
    moves := SecondCallerLocks();
    moves := Then(TWO_CALLERS, moves, 2, RereadFails);
    moves := Then(TWO_CALLERS, moves, 2, Present(Refused));
  }

  /** When the update fails after a rotation, the row keeps a token the provider no longer accepts. */
  lemma FailedUpdateLosesToken() returns (moves: seq<Move>)
    ensures Connected(TWO_CALLERS.rows, TWO_CALLERS.provider)
    ensures var s := Exec(TWO_CALLERS, moves); 7 in s.rows && 7 in s.provider && s.rows[7].refresh == 1 && s.provider[7] == 2
  {
    moves := FirstCallerStores(StoreFails);
  }
}
