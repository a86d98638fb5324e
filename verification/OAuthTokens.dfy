/** `refresh` as the code runs it between taking the lock of a row and giving it back, on a token it
    rebinds and fields it overwrites, proved to take exactly the steps of OAuthRefresh. */
module OAuthTokens {
  import opened Basics
  import R = OAuthRefresh

  /** What one refresh meets: the row its re-read finds, if the re-read succeeds; whether decryption
      works; how the provider treats the request if it presents the current token; whether encryption
      and the update of the row work. */
  datatype World = World(found: Option<R.Id>, decrypts: bool, answer: R.Answer, stores: bool)

  datatype Outcome = StillLive(row: R.Row) | Refreshed(row: R.Row) | Failed

  /** What an exchange makes of a row whose provider token is `current`: the new expiry, a new refresh
      token where one was issued, and everything else as it was; nothing at all if any part fails. */
  function AfterExchange(given: R.Row, current: int, w: World): Option<R.Row> {
    if !w.decrypts || !w.stores || given.refresh != current then None
    else match w.answer
         case Kept(expiry) => Some(given.(expiresAt := expiry))
         case Rotated(expiry) => Some(given.(refresh := current + 1, expiresAt := expiry))
         case _ => None
  }

  /** The steps of the protocol that one refresh takes; a step that is not due changes nothing. */
  function Section(s: R.State, t: R.Tid, w: World): R.State {
    Exchanged(R.Step(s, t, if w.found.Some? then R.Reread(w.found.value) else R.RereadFails), t, w)
  }

  function Exchanged(s: R.State, t: R.Tid, w: World): R.State {
    var s1 := if w.decrypts then s else R.Step(s, t, R.DecryptFails);
    var s2 := R.Step(s1, t, R.Present(w.answer));
    R.Step(s2, t, if w.stores then R.Store else R.StoreFails)
  }

  /** A call that is on its way out exchanges nothing. */
  lemma LeavingExchangesNothing(s: R.State, t: R.Tid, w: World)
    requires t in s.calls && s.calls[t].at.Leaving?
    ensures Exchanged(s, t, w) == s
  {}

  datatype Lookup = Found | Missing | LookupFails

  class TokenService {
    var rows: map<R.Id, R.Row>
    var provider: map<R.Id, int>  // the provider's side: its current token of each row's grant

    constructor (rows: map<R.Id, R.Row>, provider: map<R.Id, int>)
      ensures this.rows == rows && this.provider == provider
    {
      this.rows, this.provider := rows, provider;
    }

    /** The token endpoint: an answer to a current token, nothing usable otherwise. */
    method PostForm(id: R.Id, refreshTok: int, answer: R.Answer) returns (reply: Option<(int, Option<int>)>)
      requires id in provider
      modifies this`provider
      ensures provider == (if refreshTok == old(provider)[id] && (answer.Rotated? || answer.RotatedUnheard?)
                           then old(provider)[id := old(provider)[id] + 1] else old(provider))
      ensures reply == (if refreshTok != old(provider)[id] then None
                        else match answer
                             case Refused => None
                             case Kept(expiry) => Some((0, expiry))
                             case Rotated(expiry) => Some((provider[id], expiry))
                             case RotatedUnheard => None)
    {
      if refreshTok != provider[id] {
        return None;
      }
      match answer {
        case Refused => return None;
        case Kept(expiry) => return Some((0, expiry));
        case Rotated(expiry) =>
          provider := provider[id := provider[id] + 1];
          return Some((provider[id], expiry));
        case RotatedUnheard =>
          provider := provider[id := provider[id] + 1];
          return None;
      }
    }

    /** The checks of GetAccessToken before it calls refresh: the token expires within the window, provider
        and config are found, and there is a refresh token. A failed lookup of provider or config ends the
        call with its error. */
    method NeedsRefresh(id: R.Id, now: int, manifest: Lookup, config: Lookup, ghost s: R.State, ghost t: R.Tid)
      returns (needs: Option<bool>)
      requires id in rows && s.rows == rows && s.clock == now && t in s.calls && s.calls[t].at.Outside?
      ensures needs.None? <==> rows[id].expiresAt.Some? && rows[id].expiresAt.value <= now + 60
                               && (manifest.LookupFails? || config.LookupFails?)
      ensures needs == Some(true) <==> manifest.Found? && config.Found? && rows[id].refresh != 0
                                       && rows[id].expiresAt.Some? && rows[id].expiresAt.value <= now + 60
      ensures needs == Some(true) <==> manifest.Found? && config.Found? && R.StartCall(s, t, id).calls[t].at.Locking?
      ensures needs == Some(true) ==> R.StartCall(s, t, id).calls[t] == R.Call(R.Locking, id, id, rows[id], false, 0, None)
    {
      var token := rows[id];
      if token.expiresAt.None? || token.expiresAt.value > now + R.REFRESH_WINDOW {
        return Some(false);
      }
      if manifest.LookupFails? || config.LookupFails? {
        return None;
      }
      return Some(manifest.Found? && config.Found? && token.refresh != 0);
    }

    /** The provider call and the update of the row, with the row at hand. */
    method Exchange(tokenId: R.Id, given: R.Row, w: World, ghost s: R.State, ghost t: R.Tid) returns (r: Option<R.Row>)
      requires tokenId in rows && tokenId in provider && provider[tokenId] > 0
      requires t in s.calls && s.calls[t].at.Presenting? && s.calls[t].id == tokenId && s.calls[t].copy == given
      requires s.rows == rows && s.provider == provider
      modifies this
      ensures var s' := Exchanged(s, t, w);
              rows == s'.rows && provider == s'.provider && t in s'.calls && s'.calls[t].at.Leaving? && s'.km == s.km
      ensures r == AfterExchange(given, old(provider)[tokenId], w)
      ensures r.Some? <==> w.decrypts && w.stores && given.refresh == old(provider)[tokenId] && (w.answer.Kept? || w.answer.Rotated?)
      ensures r.Some? ==> r.value == R.Row(given.ident, if w.answer.Rotated? then old(provider)[tokenId] + 1 else given.refresh,
                                           w.answer.expiry)
      ensures rows == if r.Some? then old(rows)[tokenId := r.value] else old(rows)
    {
      var token := given;
      if !w.decrypts {
        LeavingExchangesNothing(R.Step(s, t, R.DecryptFails), t, w);
        return None;
      }
      var reply := PostForm(tokenId, token.refresh, w.answer);
      if reply.None? || !w.stores {
        return None;
      }
      if reply.value.0 != 0 {
        token := token.(refresh := reply.value.0);
      }
      token := token.(expiresAt := reply.value.1);
      rows := rows[tokenId := token];
      return Some(token);
    }

    /** The section under the lock. `s` is any state of the protocol in which call `t` has just got the
        lock of `id` with the row `given`; the method changes rows and provider as the protocol does. */
    method Refresh(id: R.Id, given: R.Row, now: int, w: World, ghost s: R.State, ghost t: R.Tid) returns (r: Outcome)
      requires id in rows && rows.Keys <= provider.Keys && forall i :: i in provider ==> provider[i] > 0
      requires w.found.Some? ==> w.found.value in rows && R.Matches(rows[w.found.value], given.ident)
      requires t in s.calls && s.calls[t] == R.Call(R.Locking, id, id, given, false, 0, None) && R.InCritical(s, t)
      requires s.rows == rows && s.provider == provider && s.clock == now
      modifies this
      ensures var s' := Section(s, t, w);
              rows == s'.rows && provider == s'.provider && t in s'.calls && s'.calls[t].at.Leaving? && s'.km == s.km
      ensures var tokenId := if w.found.Some? then w.found.value else id;
              var token := if w.found.Some? then old(rows)[tokenId] else given;
              var renewed := AfterExchange(token, old(provider)[tokenId], w);
              && rows == (if r.Refreshed? then old(rows)[tokenId := r.row] else old(rows))
              && r == if w.found.Some? && token.expiresAt.Some? && token.expiresAt.value > now + 60 then StillLive(token)
                      else if renewed.Some? then Refreshed(renewed.value) else Failed
      ensures var tokenId := if w.found.Some? then w.found.value else id;
              var token := if w.found.Some? then old(rows)[tokenId] else given;
              && (r.Refreshed? <==> !r.StillLive? && w.decrypts && w.stores && token.refresh == old(provider)[tokenId]
                                    && (w.answer.Kept? || w.answer.Rotated?))
              && (r.Refreshed? ==> r.row == R.Row(token.ident, if w.answer.Rotated? then old(provider)[tokenId] + 1
                                                               else token.refresh, w.answer.expiry))
    {
      var token, tokenId := given, id;
      ghost var s1 := R.Step(s, t, if w.found.Some? then R.Reread(w.found.value) else R.RereadFails);
      if w.found.Some? {
        var again := rows[w.found.value];
        if again.expiresAt.Some? && again.expiresAt.value > now + R.REFRESH_WINDOW {
          LeavingExchangesNothing(s1, t, w);
          return StillLive(again);
        }
        token, tokenId := again, w.found.value;
      }
      var row := Exchange(tokenId, token, w, s1, t);
      return if row.Some? then Refreshed(row.value) else Failed;
    }
  }
}
