/** What a single call of GetAccessToken does in the protocol, said of rows, times and tokens themselves. */
module RefreshOutcomes {
  import opened Basics
  import opened R = OAuthRefresh
  import K = KeyedMutexProtocol

  /** The access token of the row expires within a minute, and there is a refresh token to renew it. */
  predicate Due(row: Row, clock: int) {
    row.refresh != 0 && row.expiresAt.Some? && row.expiresAt.value <= clock + 60
  }

  /** An idle call on a row goes to the row's lock with a copy of the row if and only if the row is due; else
      nothing happens. */
  lemma StartsIffDue(s: State, t: Tid, id: Id)
    requires Inv(s) && t in s.calls && s.calls[t].at.Outside?
    ensures var s' := Step(s, t, Start(id));
            && t in s'.calls && t in s'.km.threads
            && (s'.calls[t].at.Locking? <==>
                  id in s.rows && s.rows[id].refresh != 0 && s.rows[id].expiresAt.Some? && s.rows[id].expiresAt.value <= s.clock + 60)
            && (s'.calls[t].at.Locking? ==>
                  && s'.calls[t].lockKey == id && s'.calls[t].id == id && s'.calls[t].copy == s.rows[id]
                  && s'.km.threads[t] == K.Thread(K.MapLock, id, 0)
                  && s'.rows == s.rows && s'.provider == s.provider && s'.requests == s.requests)
            && (!s'.calls[t].at.Locking? ==> s' == s)
  {}

  /** Under the lock the row is read again: a row of another user, provider or account is not what the lookup
      finds, a row that is live by now ends the refresh, and any other is the one to refresh. */
  lemma RereadDecides(s: State, t: Tid, pick: Id)
    requires t in s.calls && s.calls[t].at.Locking? && InCritical(s, t)
    ensures var s' := Step(s, t, Reread(pick)); var ident := s.calls[t].copy.ident;
            if pick !in s.rows || s.rows[pick].ident.user != ident.user || s.rows[pick].ident.provider != ident.provider
               || (ident.account != "" && s.rows[pick].ident.account != ident.account)
            then s' == s
            else
              && s'.calls[t].at == (if s.rows[pick].expiresAt.Some? && s.rows[pick].expiresAt.value > s.clock + 60 then Leaving
                                    else Presenting)
              && (s'.calls[t].at.Presenting? ==>
                    s'.calls[t].id == pick && s'.calls[t].copy == s.rows[pick] && s'.calls[t].reread)
              && s'.rows == s.rows && s'.provider == s.provider && s'.requests == s.requests && s'.lost == s.lost
  {}

  /** The steps of a refresh that meets no fault, from the lock on. */
  function Undisturbed(s: State, t: Tid, id: Id, answer: Answer): State {
    Step(Step(Step(s, t, Reread(id)), t, Present(answer)), t, Store)
  }

  lemma RereadOwnRow(s: State, t: Tid)
    requires Inv(s) && t in s.calls && s.calls[t].at.Locking? && InCritical(s, t)
    ensures var id := s.calls[t].id; id in s.rows && id in s.provider && Matches(s.rows[id], s.calls[t].copy.ident)
    ensures s.provider[s.calls[t].id] > 0
  {
    assert CallOk(t, s.calls[t], s.clock, s.rows, s.provider, s.lost, s.answered);
    RowTokenIsOk(s, s.calls[t].id);
  }

  lemma RefetchedState(s: State, t: Tid)
    requires Inv(s) && t in s.calls && s.calls[t].at.Locking? && InCritical(s, t)
    requires s.calls[t].id in s.rows && Due(s.rows[s.calls[t].id], s.clock)
    ensures var id := s.calls[t].id; var s1 := Step(s, t, Reread(id));
            && Inv(s1) && s1 == s.(calls := s1.calls) && t in s1.calls
            && s1.calls[t] == s.calls[t].(at := Presenting, copy := s.rows[id], reread := true)
            && id in s.provider && (s.rows[id].refresh == s.provider[id] <==> id !in s.lost)
  {
    var id := s.calls[t].id;
    var s1 := Step(s, t, Reread(id));
    RereadOwnRow(s, t);
    StepKeepsInv(s, t, Reread(id));
    DataLocksIds(s1);
    OneHolder(s1, t);
    NoAnswerYet(s1, t);
    RowTokenIsOk(s1, id);
  }

  /** A refresh that meets no fault makes one request, with the stored token. If the provider rotates, the row
      has the new token and the new expiry, if it keeps the token, the new expiry, and nothing else of the
      row and no other row changes; if it refuses, or the token had been lost before, no row changes. */
  lemma UndisturbedRefresh(s: State, t: Tid, answer: Answer)
    requires Inv(s) && t in s.calls && s.calls[t].at.Locking? && InCritical(s, t) && !answer.RotatedUnheard?
    requires s.calls[t].id in s.rows && Due(s.rows[s.calls[t].id], s.clock)
    ensures var id := s.calls[t].id; var row := s.rows[id]; var s' := Undisturbed(s, t, id, answer);
            && id in s.provider && t in s'.calls && s'.calls[t].at.Leaving? && s'.lost == s.lost && s'.km == s.km
            && |s'.requests| == |s.requests| + 1 && s'.requests[..|s.requests|] == s.requests
            && s'.requests[|s.requests|].id == id && s'.requests[|s.requests|].presented == row.refresh
            && s'.rows == (match answer
                           case Rotated(expiry) =>
                             if id in s.lost then s.rows else s.rows[id := Row(row.ident, s.provider[id] + 1, expiry)]
                           case Kept(expiry) =>
                             if id in s.lost then s.rows else s.rows[id := Row(row.ident, row.refresh, expiry)]
                           case _ => s.rows)
            && s'.provider == (if answer.Rotated? && id !in s.lost then s.provider[id := s.provider[id] + 1] else s.provider)
  {
    RefetchedState(s, t);
    RereadOwnRow(s, t);
  }
}
