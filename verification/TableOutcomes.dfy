/** What the operations of OAuthTables find and leave behind, said of users, keys, ids and fields themselves. */
module TableOutcomes {
  import opened Basics
  import opened OAuthTables

  // ---- lookups ----

  /** The lookups find the row of that user and key, config or account, and nothing only if there is none. */
  lemma LookupsFindTheRow(t: Tables, user: int, kind: string, key: string, pid: Id, i: Id)
    requires Inv(t)
    ensures ManifestOf(t.manifests, user, kind, key) == Some(i)
            <==> i in t.manifests && t.manifests[i].user == user && t.manifests[i].kind == kind && t.manifests[i].key == key
    ensures ConfigOf(t.configs, user, pid) == Some(i)
            <==> i in t.configs && t.configs[i].user == user && t.configs[i].providerId == pid
  {}

  /** With an account the token found is the one of that account; without one it is the newest of the user's
      tokens at the provider. Nothing is found only if there is none. */
  lemma TokenFoundIsNewest(t: Tables, user: int, pid: Id, account: string)
    requires Inv(t)
    ensures match Found(t.tokens, user, pid, account)
            case Some(i) =>
              && i in t.tokens && t.tokens[i].user == user && t.tokens[i].providerId == pid
              && (account != "" ==> t.tokens[i].account == account)
              && (account == "" ==> forall j :: j in t.tokens && t.tokens[j].user == user && t.tokens[j].providerId == pid ==>
                                      t.tokens[j].createdAt <= t.tokens[i].createdAt)
            case None =>
              forall j :: j in t.tokens && t.tokens[j].user == user && t.tokens[j].providerId == pid ==>
                account != "" && t.tokens[j].account != account
  {
    if account != "" {
      FoundIsTheMatch(t, user, pid, account);
    } else if j :| j in t.tokens && t.tokens[j].user == user && t.tokens[j].providerId == pid {
      assert MatchesToken(t.tokens[j], user, pid, "");
      var n := NewestMatch(t.tokens, t.tokens.Keys, user, pid);
      assert IsFound(t.tokens, user, pid, "", n);
    }
  }

  /** What it means for the tables to be in order. */
  lemma InOrderMeans(t: Tables)
    ensures Inv(t) <==>
            && (forall i :: i in t.manifests ==> t.manifests[i].kind == "oauth" && t.manifests[i].providerId != 0)
            && (forall i, j :: i in t.manifests && j in t.manifests ==>
                  (t.manifests[i].user == t.manifests[j].user && t.manifests[i].key == t.manifests[j].key ==> i == j)
                  && (t.manifests[i].providerId == t.manifests[j].providerId ==> i == j))
            && (forall c :: c in t.configs ==> exists m :: m in t.manifests && t.manifests[m].user == t.configs[c].user
                                                           && t.manifests[m].providerId == t.configs[c].providerId)
            && (forall c, d :: c in t.configs && d in t.configs ==>
                  (t.configs[c].user == t.configs[d].user && t.configs[c].providerId == t.configs[d].providerId ==> c == d))
            && (forall k :: k in t.tokens ==>
                  t.tokens[k].account != "" && exists m :: m in t.manifests && t.manifests[m].user == t.tokens[k].user
                                                           && t.manifests[m].providerId == t.tokens[k].providerId)
            && (forall k, l :: k in t.tokens && l in t.tokens ==>
                  ((t.tokens[k].user == t.tokens[l].user && t.tokens[k].providerId == t.tokens[l].providerId
                    && t.tokens[k].account == t.tokens[l].account) ==> k == l))
  {}

  // ---- operations ----

  /** One of n character codes from `lo` on. */
  predicate Among(c: char, lo: int, n: nat) {
    lo <= c as int < lo + n
  }

  /** Valid slugs are the non-empty words of ASCII letters, digits, underscores and hyphens. */
  lemma SlugsAreWords(key: string)
    ensures ValidSlug(key) <==>
            key != "" && forall i :: 0 <= i < |key| ==>
              Among(key[i], 97, 26) || Among(key[i], 65, 26) || Among(key[i], 48, 10) || key[i] == '_' || key[i] == '-'
  {}

  /** Saving a provider writes one row, of this user and key: the row of that key with the new document and
      otherwise as it was, save that a missing parent is filled in; or without one a new row. A bad slug
      changes nothing. */
  lemma SaveProviderTouchesOneRow(t: Tables, user: int, key: string, parent: Id, doc: string, newRow: Id, newProvider: Id) returns (i: Id)
    requires Inv(t) && Fresh(t, SaveProviderOp(user, key, parent, doc, newRow, newProvider))
    ensures var t' := SaveProvider(t, user, key, parent, doc, newRow, newProvider);
            && t'.configs == t.configs && t'.tokens == t.tokens
            && (!ValidSlug(key) ==> t' == t)
            && (ValidSlug(key) ==>
                  && t'.manifests.Keys == t.manifests.Keys + {i}
                  && (forall j :: j in t.manifests && j != i ==> t'.manifests[j] == t.manifests[j])
                  && (i in t.manifests <==>
                        exists j :: j in t.manifests && t.manifests[j].user == user && t.manifests[j].kind == "oauth"
                                    && t.manifests[j].key == key)
                  && t'.manifests[i] ==
                       if i in t.manifests
                       then Manifest(user, "oauth", key, t.manifests[i].providerId,
                                     if t.manifests[i].parentId != 0 then t.manifests[i].parentId else parent, doc)
                       else Manifest(user, "oauth", key, newProvider, parent, doc))
  {
    var found := ManifestOf(t.manifests, user, OAUTH, key);
    i := if found.Some? then found.value else newRow;
    if j :| j in t.manifests && t.manifests[j].user == user && t.manifests[j].kind == "oauth" && t.manifests[j].key == key {
      assert IsManifest(t.manifests[j], user, OAUTH, key);
    }
  }

  /** Removing a provider removes its row, and the user's configs and tokens of its id, and no other row. */
  lemma RemoveProviderRemovesExactly(t: Tables, user: int, key: string, m: Id)
    requires Inv(t) && m in t.manifests && t.manifests[m].user == user && t.manifests[m].key == key
    ensures var t' := RemoveProvider(t, user, "oauth", key); var pid := t.manifests[m].providerId;
            && (forall j :: j in t'.manifests <==> j in t.manifests && j != m)
            && (forall j :: j in t'.configs <==> j in t.configs && !(t.configs[j].user == user && t.configs[j].providerId == pid))
            && (forall j :: j in t'.tokens <==> j in t.tokens && !(t.tokens[j].user == user && t.tokens[j].providerId == pid))
            && (forall j :: j in t'.manifests ==> t'.manifests[j] == t.manifests[j])
            && (forall j :: j in t'.configs ==> t'.configs[j] == t.configs[j])
            && (forall j :: j in t'.tokens ==> t'.tokens[j] == t.tokens[j])
  {
    LookupsFindTheRow(t, user, "oauth", key, 0, m);
  }

  lemma RemoveNoProvider(t: Tables, user: int, kind: string, key: string)
    requires forall j :: j in t.manifests ==> t.manifests[j].user != user || t.manifests[j].kind != kind || t.manifests[j].key != key
    ensures RemoveProvider(t, user, kind, key) == t
  {}

  /** A config or token is deleted by its id, and only by its user. */
  lemma DeletesOwnRow(t: Tables, user: int, i: Id)
    ensures var t' := RemoveConfig(t, user, i);
            && t'.manifests == t.manifests && t'.tokens == t.tokens
            && (forall j :: j in t'.configs <==> j in t.configs && !(j == i && t.configs[j].user == user))
            && (forall j :: j in t'.configs ==> t'.configs[j] == t.configs[j])
    ensures var t' := RemoveToken(t, user, i);
            && t'.manifests == t.manifests && t'.configs == t.configs
            && (forall j :: j in t'.tokens <==> j in t.tokens && !(j == i && t.tokens[j].user == user))
            && (forall j :: j in t'.tokens ==> t'.tokens[j] == t.tokens[j])
  {}

  /** A completion is refused, with nothing changed, exactly without the provider or without a config of it. */
  lemma ConnectRefusedIff(t: Tables, owner: int, provider: string, g: Grant, now: int, newRow: Id)
    requires Inv(t)
    ensures var (t', r) := Connect(t, owner, provider, g, now, newRow);
            && (r == Err(UnknownProvider) <==>
                  forall m :: m in t.manifests ==>
                    t.manifests[m].user != owner || t.manifests[m].kind != "oauth" || t.manifests[m].key != provider)
            && (r.Ok? <==>
                  exists m, c :: m in t.manifests && t.manifests[m].user == owner && t.manifests[m].kind == "oauth"
                                 && t.manifests[m].key == provider
                                 && c in t.configs && t.configs[c].user == owner && t.configs[c].providerId == t.manifests[m].providerId)
            && (r.Err? ==> t' == t && (r.error == UnknownProvider || r.error == NoConfig))
  {
    var found := ManifestOf(t.manifests, owner, OAUTH, provider);
    if found.Some? {
      var pid := t.manifests[found.value].providerId;
      forall m | m in t.manifests && IsManifest(t.manifests[m], owner, OAUTH, provider) ensures m == found.value {}
      var c := ConfigOf(t.configs, owner, pid);
      if c.Some? {
        assert found.value in t.manifests && c.value in t.configs && t.configs[c.value].providerId == pid;
      } else {
        forall d | d in t.configs && t.configs[d].user == owner ensures t.configs[d].providerId != pid {
          assert !IsConfig(t.configs[d], owner, pid);
        }
      }
    }
  }

  /** Connecting an account writes one row, the account's: on first connection a new one, else the one it has
      with the new access token, scopes and expiry, and with its refresh token if none was granted. Scopes that
      were not granted are taken from the config. No other row changes. */
  lemma ConnectTouchesOneAccount(t: Tables, owner: int, provider: string, g: Grant, now: int, newRow: Id, m: Id, c: Id) returns (i: Id)
    requires Inv(t) && g.account != "" && newRow !in t.tokens
    requires m in t.manifests && t.manifests[m].user == owner && t.manifests[m].key == provider
    requires c in t.configs && t.configs[c].user == owner && t.configs[c].providerId == t.manifests[m].providerId
    ensures var pid := t.manifests[m].providerId; var (t', r) := Connect(t, owner, provider, g, now, newRow);
            var scopes := if g.scopes != "" then g.scopes else t.configs[c].scopes;
            && r == Ok(()) && t'.manifests == t.manifests && t'.configs == t.configs
            && t'.tokens.Keys == t.tokens.Keys + {i} && (forall j :: j in t.tokens && j != i ==> t'.tokens[j] == t.tokens[j])
            && (i in t.tokens <==> exists j :: j in t.tokens && t.tokens[j].user == owner && t.tokens[j].providerId == pid
                                               && t.tokens[j].account == g.account)
            && t'.tokens[i] ==
                 if i in t.tokens
                 then Token(owner, pid, t.tokens[i].providerKey, g.account, g.access,
                            if g.refresh != "" then g.refresh else t.tokens[i].refresh, scopes, g.expiresAt, t.tokens[i].createdAt)
                 else Token(owner, pid, provider, g.account, g.access, g.refresh, scopes, g.expiresAt, now)
  {
    var pid := t.manifests[m].providerId;
    LookupsFindTheRow(t, owner, "oauth", provider, pid, m);
    LookupsFindTheRow(t, owner, "oauth", provider, pid, c);
    FoundIsTheMatch(t, owner, pid, g.account);
    var found := Found(t.tokens, owner, pid, g.account);
    i := if found.Some? then found.value else newRow;
    if j :| j in t.tokens && t.tokens[j].user == owner && t.tokens[j].providerId == pid && t.tokens[j].account == g.account {
      assert MatchesToken(t.tokens[j], owner, pid, g.account);
    }
  }

  /** A refresh writes the row it is for and nothing else of it than access token, expiry and, if a new one was
      issued, refresh token. */
  lemma RefreshTouchesOneRow(t: Tables, i: Id, access: string, refresh: string, expiresAt: Option<int>)
    ensures var t' := Refreshed(t, i, access, refresh, expiresAt);
            && t'.manifests == t.manifests && t'.configs == t.configs && t'.tokens.Keys == t.tokens.Keys
            && (forall j :: j in t.tokens && j != i ==> t'.tokens[j] == t.tokens[j])
            && (i in t.tokens ==>
                  var k := t.tokens[i];
                  t'.tokens[i] == Token(k.user, k.providerId, k.providerKey, k.account, access,
                                        if refresh != "" then refresh else k.refresh, k.scopes, expiresAt, k.createdAt))
  {}
}
