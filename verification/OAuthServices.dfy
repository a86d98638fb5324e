/** The in-memory tables and the service methods that change them, proved to do what OAuthTables says.
    Iterating over a map visits its rows in any order. */
module OAuthServices {
  import opened Basics
  import opened T = OAuthTables

  class Store {
    var manifests: map<Id, Manifest>
    var configs: map<Id, Config>
    var tokens: map<Id, Token>

    constructor ()
      ensures View() == EMPTY
    {
      manifests, configs, tokens := map[], map[], map[];
    }

    ghost function View(): Tables
      reads this
    {
      Tables(manifests, configs, tokens)
    }

    // ---- the store ----

    method GetManifestByKey(user: int, kind: string, key: string) returns (r: Option<Id>)
      requires Inv(View())
      ensures r == ManifestOf(manifests, user, kind, key)
    {
      var pending := manifests.Keys;
      while pending != {}
        invariant pending <= manifests.Keys
        invariant forall i :: i in manifests && i !in pending ==> !IsManifest(manifests[i], user, kind, key)
      {
        var i := AnyOf(pending);
        if IsManifest(manifests[i], user, kind, key) {
          return Some(i);
        }
        pending := pending - {i};
      }
      return None;
    }

    method GetConfigByProvider(user: int, providerId: Id) returns (r: Option<Id>)
      requires Inv(View())
      ensures r == ConfigOf(configs, user, providerId)
    {
      var pending := configs.Keys;
      while pending != {}
        invariant pending <= configs.Keys
        invariant forall i :: i in configs && i !in pending ==> !IsConfig(configs[i], user, providerId)
      {
        var i := AnyOf(pending);
        if IsConfig(configs[i], user, providerId) {
          return Some(i);
        }
        pending := pending - {i};
      }
      return None;
    }

    /** The newest match; of several equally new ones, any. */
    method FindOAuthToken(user: int, providerId: Id, account: string) returns (r: Option<Id>)
      ensures if r.Some? then IsFound(tokens, user, providerId, account, r.value) else NoToken(tokens, user, providerId, account)
    {
      r := None;
      var pending := tokens.Keys;
      while pending != {}
        invariant pending <= tokens.Keys
        invariant r.Some? ==> r.value in tokens && MatchesToken(tokens[r.value], user, providerId, account)
        invariant forall i :: i in tokens && i !in pending && MatchesToken(tokens[i], user, providerId, account) ==>
                    r.Some? && tokens[i].createdAt <= tokens[r.value].createdAt
      {
        var i := AnyOf(pending);
        pending := pending - {i};
        if tokens[i].user != user || tokens[i].providerId != providerId {
          continue;
        }
        if account != "" && tokens[i].account != account {
          continue;
        }
        if r.None? || tokens[i].createdAt > tokens[r.value].createdAt {
          r := Some(i);
        }
      }
    }

    method DeleteManifestCascade(user: int, kind: string, key: string) returns (ok: bool)
      requires Inv(View())
      modifies this
      ensures View() == RemoveProvider(old(View()), user, kind, key)
      ensures ok <==> ManifestOf(old(manifests), user, kind, key).Some?
    {
      var target := GetManifestByKey(user, kind, key);
      if target.None? {
        return false;
      }
      if kind == OAUTH {
        DeleteConfigsOf(user, manifests[target.value].providerId);
        DeleteTokensOf(user, manifests[target.value].providerId);
      }
      manifests := manifests - {target.value};
      return true;
    }

    method DeleteConfigsOf(user: int, pid: Id)
      modifies this`configs
      ensures configs == map c | c in old(configs) && !IsConfig(old(configs)[c], user, pid) :: old(configs)[c]
    {
      var pending := configs.Keys;
      while pending != {}
        invariant pending <= old(configs).Keys
        invariant configs == map c | c in old(configs) && (c in pending || !IsConfig(old(configs)[c], user, pid)) :: old(configs)[c]
      {
        var c := AnyOf(pending);
        if configs[c].providerId == pid && configs[c].user == user {
          configs := configs - {c};
        }
        pending := pending - {c};
      }
    }

    method DeleteTokensOf(user: int, pid: Id)
      modifies this`tokens
      ensures tokens == map k | k in old(tokens) && !MatchesToken(old(tokens)[k], user, pid, "") :: old(tokens)[k]
    {
      var pending := tokens.Keys;
      while pending != {}
        invariant pending <= old(tokens).Keys
        invariant tokens == map k | k in old(tokens) && (k in pending || !MatchesToken(old(tokens)[k], user, pid, "")) :: old(tokens)[k]
      {
        var k := AnyOf(pending);
        if tokens[k].providerId == pid && tokens[k].user == user {
          tokens := tokens - {k};
        }
        pending := pending - {k};
      }
    }

    // ---- the services ----

    /** Resolver.UpsertOAuth; false for an invalid slug. */
    method UpsertOAuth(user: int, key: string, parent: Id, doc: string, newRow: Id, newProvider: Id) returns (ok: bool)
      requires Inv(View()) && Fresh(View(), SaveProviderOp(user, key, parent, doc, newRow, newProvider))
      modifies this
      ensures View() == Apply(old(View()), SaveProviderOp(user, key, parent, doc, newRow, newProvider)) && Inv(View())
      ensures ok <==> ValidSlug(key)
    {
      ApplyKeepsInv(View(), SaveProviderOp(user, key, parent, doc, newRow, newProvider));
      if !ValidSlug(key) {
        return false;
      }
      var found := GetManifestByKey(user, OAUTH, key);
      var providerId, parentId := newProvider, parent;
      if found.Some? {
        var row := manifests[found.value];
        if row.providerId != NIL {
          providerId := row.providerId;
        }
        if row.parentId != NIL {
          parentId := row.parentId;
        }
        row := row.(providerId := providerId);
        row := row.(parentId := parentId);
        row := row.(doc := doc);
        manifests := manifests[found.value := row];
      } else {
        manifests := manifests[newRow := Manifest(user, OAUTH, key, providerId, parentId, doc)];
      }
      return true;
    }

    method DeleteProvider(user: int, kind: string, key: string) returns (ok: bool)
      requires Inv(View())
      modifies this
      ensures View() == Apply(old(View()), RemoveProviderOp(user, kind, key)) && Inv(View())
    {
      ApplyKeepsInv(View(), RemoveProviderOp(user, kind, key));
      ok := DeleteManifestCascade(user, kind, key);
    }

    /** OAuthConfigService.Upsert. */
    method UpsertConfig(user: int, provider: string, clientId: string, secret: string, scopes: string,
                        redirect: Option<string>, newRow: Id) returns (r: Result<Id, Error>)
      requires Inv(View()) && newRow !in configs
      modifies this
      ensures (View(), r) == SaveConfig(old(View()), user, provider, clientId, secret, scopes, redirect, newRow) && Inv(View())
    {
      SaveConfigKeepsInv(View(), SaveConfigOp(user, provider, clientId, secret, scopes, redirect, newRow));
      var m := GetManifestByKey(user, OAUTH, provider);
      if m.None? {
        return Err(UnknownProvider);
      }
      var providerId := manifests[m.value].providerId;
      var found := GetConfigByProvider(user, providerId);
      if found.None? {
        if secret == "" {
          return Err(SecretRequired);
        }
        configs := configs[newRow := Config(user, providerId, provider, clientId, secret, scopes, redirect)];
        return Ok(newRow);
      }
      var row := configs[found.value];
      row := row.(providerKey := provider);
      row := row.(clientId := clientId);
      if secret != "" {
        row := row.(secret := secret);
      }
      row := row.(scopes := scopes);
      row := row.(redirect := redirect);
      configs := configs[found.value := row];
      return Ok(found.value);
    }

    /** storeToken. */
    method StoreGrant(owner: int, providerId: Id, provider: string, g: Grant, now: int, newRow: Id)
      requires Inv(View()) && g.account != "" && newRow !in tokens
      modifies this`tokens
      ensures View() == StoreToken(old(View()), Found(old(tokens), owner, providerId, g.account), owner, providerId, provider, g, now, newRow)
    {
      FoundIsTheMatch(View(), owner, providerId, g.account);
      var found := FindOAuthToken(owner, providerId, g.account);
      if found.None? {
        tokens := tokens[newRow := Token(owner, providerId, provider, g.account, g.access, g.refresh, g.scopes, g.expiresAt, now)];
        return;
      }
      var existing := tokens[found.value];
      existing := existing.(access := g.access);
      if g.refresh != "" {
        existing := existing.(refresh := g.refresh);
      }
      existing := existing.(scopes := g.scopes);
      existing := existing.(expiresAt := g.expiresAt);
      tokens := tokens[found.value := existing];
    }

    /** completeCore once the state row is claimed and the code exchanged. */
    method CompleteConnect(owner: int, provider: string, g: Grant, now: int, newRow: Id) returns (r: Result<(), Error>)
      requires Inv(View()) && Fresh(View(), ConnectOp(owner, provider, g, now, newRow))
      modifies this
      ensures (View(), r) == Connect(old(View()), owner, provider, g, now, newRow) && Inv(View())
    {
      ConnectKeepsInv(View(), ConnectOp(owner, provider, g, now, newRow));
      var m := GetManifestByKey(owner, OAUTH, provider);
      if m.None? {
        return Err(UnknownProvider);
      }
      var providerId := manifests[m.value].providerId;
      var c := GetConfigByProvider(owner, providerId);
      if c.None? {
        return Err(NoConfig);
      }
      var granted := g;
      if granted.scopes == "" {
        granted := granted.(scopes := configs[c.value].scopes);
      }
      StoreGrant(owner, providerId, provider, granted, now, newRow);
      return Ok(());
    }
  }

  // ---- the account of a grant ----

  datatype Json = JString(s: string) | JObject(fields: map<string, Json>) | JOther

  const DEFAULT_ACCOUNT := "default"
  const ACCOUNT_KEYS := ["email", "mail", "userPrincipalName", "preferred_username", "login", "sub"]

  /** The value under a path of keys; None for a missing field or a step into something else. */
  function Lookup(value: Option<Json>, path: seq<string>): Option<Json>
    decreases |path|
  {
    if path == [] then value
    else if value.Some? && value.value.JObject? then
      Lookup(if path[0] in value.value.fields then Some(value.value.fields[path[0]]) else None, path[1..])
    else None
  }

  function Named(value: Option<Json>): string {
    if value.Some? && value.value.JString? then value.value.s else ""
  }

  function Field(info: map<string, Json>, key: string): Option<Json> {
    if key in info then Some(info[key]) else None
  }

  /** A field that holds a non-empty string. */
  ghost predicate HasName(info: map<string, Json>, key: string) {
    exists name :: name != "" && key in info && info[key] == JString(name)
  }

  /** A path is followed key by key through objects. */
  lemma LookupFollows(fields: map<string, Json>, key: string, path: seq<string>)
    ensures Lookup(Some(JObject(fields)), [key] + path) == (if key in fields then Lookup(Some(fields[key]), path) else Lookup(None, path))
    ensures path != [] ==> Lookup(None, path) == None
    ensures forall v: Json :: path != [] && !v.JObject? ==> Lookup(Some(v), path) == None
    ensures forall v: Option<Json> :: Lookup(v, []) == v
  {
    assert ([key] + path)[1..] == path;
  }

  /** fetchAccount: `info` is the decoded userinfo answer, None whenever there is no usable one; `path`
      is the split account path of the manifest, empty when it has none. The account is what the path
      leads to, or else the first well-known field that holds a name, and it is never empty. */
  method FetchAccount(info: Option<map<string, Json>>, path: seq<string>) returns (account: string)
    ensures account != ""
    ensures info.Some? && path != [] ==>
              match Lookup(Some(JObject(info.value)), path)
              case Some(JString(name)) => account == if name != "" then name else "default"
              case _ => account == "default"
    ensures info.Some? && path == [] ==>
              if exists k :: 0 <= k < |ACCOUNT_KEYS| && HasName(info.value, ACCOUNT_KEYS[k])
              then exists k :: 0 <= k < |ACCOUNT_KEYS| && ACCOUNT_KEYS[k] in info.value && info.value[ACCOUNT_KEYS[k]] == JString(account)
                               && forall j :: 0 <= j < k ==> !HasName(info.value, ACCOUNT_KEYS[j])
              else account == "default"
    ensures info.None? ==> account == "default"
  {
    if info.None? {
      return DEFAULT_ACCOUNT;
    }
    if path != [] {
      var value := Some(JObject(info.value));
      var i := 0;
      while i < |path|
        invariant 0 <= i <= |path|
        invariant Lookup(value, path[i..]) == Lookup(Some(JObject(info.value)), path)
      {
        if value.None? || !value.value.JObject? {
          return DEFAULT_ACCOUNT;
        }
        value := Field(value.value.fields, path[i]);
        i := i + 1;
      }
      account := Named(value);
      return if account != "" then account else DEFAULT_ACCOUNT;
    }
    var k := 0;
    while k < |ACCOUNT_KEYS|
      invariant 0 <= k <= |ACCOUNT_KEYS|
      invariant forall j :: 0 <= j < k ==> !HasName(info.value, ACCOUNT_KEYS[j])
    {
      account := Named(Field(info.value, ACCOUNT_KEYS[k]));
      if account != "" {
        assert HasName(info.value, ACCOUNT_KEYS[k]);
        return account;
      }
      k := k + 1;
    }
    return DEFAULT_ACCOUNT;
  }
}
