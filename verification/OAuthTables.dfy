/** The provider, config and token tables as values: what each service operation does to them, and what
    every sequence of operations keeps. Secrets are written as plain text here; Envelope shows that
    encrypting and decrypting them changes nothing. New ids are inputs that occur nowhere yet. */
module OAuthTables {
  import opened Basics

  type Id = int

  const NIL: Id := 0
  const OAUTH := "oauth"

  datatype Manifest = Manifest(user: int, kind: string, key: string, providerId: Id, parentId: Id, doc: string)

  datatype Config = Config(user: int, providerId: Id, providerKey: string, clientId: string, secret: string,
                           scopes: string, redirect: Option<string>)

  datatype Token = Token(user: int, providerId: Id, providerKey: string, account: string, access: string, refresh: string,
                         scopes: string, expiresAt: Option<int>, createdAt: int)

  datatype Tables = Tables(manifests: map<Id, Manifest>, configs: map<Id, Config>, tokens: map<Id, Token>)

  datatype Error = InvalidSlug | UnknownProvider | SecretRequired | NoConfig

  /** What the provider granted, with the account it names. */
  datatype Grant = Grant(access: string, refresh: string, scopes: string, expiresAt: Option<int>, account: string)

  // ---- lookups ----

  predicate IsManifest(m: Manifest, user: int, kind: string, key: string) {
    m.user == user && m.kind == kind && m.key == key
  }

  /** GetManifestByKey. */
  ghost function ManifestOf(ms: map<Id, Manifest>, user: int, kind: string, key: string): (r: Option<Id>)
    ensures r.Some? ==> r.value in ms && IsManifest(ms[r.value], user, kind, key)
    ensures r.None? ==> forall i :: i in ms ==> !IsManifest(ms[i], user, kind, key)
  {
    if i :| i in ms && IsManifest(ms[i], user, kind, key) then Some(i) else None
  }

  predicate IsConfig(c: Config, user: int, providerId: Id) {
    c.user == user && c.providerId == providerId
  }

  /** GetOAuthConfigByProvider. */
  ghost function ConfigOf(cs: map<Id, Config>, user: int, providerId: Id): (r: Option<Id>)
    ensures r.Some? ==> r.value in cs && IsConfig(cs[r.value], user, providerId)
    ensures r.None? ==> forall i :: i in cs ==> !IsConfig(cs[i], user, providerId)
  {
    if i :| i in cs && IsConfig(cs[i], user, providerId) then Some(i) else None
  }

  /** FindOAuthToken's filter; an empty account matches every account. */
  predicate MatchesToken(t: Token, user: int, providerId: Id, account: string) {
    t.user == user && t.providerId == providerId && (account == "" || t.account == account)
  }

  /** A newest match. */
  ghost predicate IsFound(ts: map<Id, Token>, user: int, providerId: Id, account: string, i: Id) {
    && i in ts && MatchesToken(ts[i], user, providerId, account)
    && forall j :: j in ts && MatchesToken(ts[j], user, providerId, account) ==> ts[j].createdAt <= ts[i].createdAt
  }

  ghost predicate NoToken(ts: map<Id, Token>, user: int, providerId: Id, account: string) {
    forall i :: i in ts ==> !MatchesToken(ts[i], user, providerId, account)
  }

  ghost predicate NoConfigOf(cs: map<Id, Config>, user: int, providerId: Id) {
    forall i :: i in cs ==> !IsConfig(cs[i], user, providerId)
  }

  ghost predicate NoManifestOf(ms: map<Id, Manifest>, user: int, kind: string, key: string) {
    forall i :: i in ms ==> !IsManifest(ms[i], user, kind, key)
  }

  // ---- operations ----

  predicate ValidSlug(key: string) {
    key != "" && forall i :: 0 <= i < |key| ==>
      'a' <= key[i] <= 'z' || 'A' <= key[i] <= 'Z' || '0' <= key[i] <= '9' || key[i] == '_' || key[i] == '-'
  }

  /** Resolver.UpsertOAuth: an edit keeps the provider id and the first parent id. */
  ghost function SaveProvider(t: Tables, user: int, key: string, parent: Id, doc: string, newRow: Id, newProvider: Id): Tables {
    if !ValidSlug(key) then t
    else match ManifestOf(t.manifests, user, OAUTH, key)
         case None => t.(manifests := t.manifests[newRow := Manifest(user, OAUTH, key, newProvider, parent, doc)])
         case Some(i) =>
           var m := t.manifests[i];
           t.(manifests := t.manifests[i := m.(providerId := if m.providerId != NIL then m.providerId else newProvider,
                                               parentId := if m.parentId != NIL then m.parentId else parent, doc := doc)])
  }

  /** DeleteManifestCascade. */
  ghost function RemoveProvider(t: Tables, user: int, kind: string, key: string): Tables {
    match ManifestOf(t.manifests, user, kind, key)
    case None => t
    case Some(i) =>
      var pid := t.manifests[i].providerId;
      var ms := t.manifests - {i};
      if kind != OAUTH then t.(manifests := ms)
      else Tables(ms, map c | c in t.configs && !IsConfig(t.configs[c], user, pid) :: t.configs[c],
                  map k | k in t.tokens && !MatchesToken(t.tokens[k], user, pid, "") :: t.tokens[k])
  }

  /** OAuthConfigService.Upsert: a blank secret on edit keeps the stored one. */
  ghost function SaveConfig(t: Tables, user: int, provider: string, clientId: string, secret: string, scopes: string,
                            redirect: Option<string>, newRow: Id): (Tables, Result<Id, Error>)
  {
    match ManifestOf(t.manifests, user, OAUTH, provider)
    case None => (t, Err(UnknownProvider))
    case Some(m) =>
      var pid := t.manifests[m].providerId;
      match ConfigOf(t.configs, user, pid)
      case None =>
        if secret == "" then (t, Err(SecretRequired))
        else (t.(configs := t.configs[newRow := Config(user, pid, provider, clientId, secret, scopes, redirect)]), Ok(newRow))
      case Some(i) =>
        var c := t.configs[i];
        (t.(configs := t.configs[i := c.(providerKey := provider, clientId := clientId, scopes := scopes, redirect := redirect,
                                         secret := if secret != "" then secret else c.secret)]), Ok(i))
  }

  function RemoveConfig(t: Tables, user: int, i: Id): Tables {
    if i in t.configs && t.configs[i].user == user then t.(configs := t.configs - {i}) else t
  }

  /** A token row with a grant written into it. */
  function Renewed(k: Token, g: Grant): Token {
    k.(access := g.access, refresh := if g.refresh != "" then g.refresh else k.refresh,
       scopes := g.scopes, expiresAt := g.expiresAt)
  }

  /** storeToken, given the row FindOAuthToken found: overwrite it, or insert a new one. */
  function StoreToken(t: Tables, found: Option<Id>, owner: int, providerId: Id, providerKey: string, g: Grant, now: int, newRow: Id): Tables
    requires found.Some? ==> found.value in t.tokens
  {
    match found
    case None =>
      t.(tokens := t.tokens[newRow := Token(owner, providerId, providerKey, g.account, g.access, g.refresh, g.scopes, g.expiresAt, now)])
    case Some(i) => t.(tokens := t.tokens[i := Renewed(t.tokens[i], g)])
  }

  ghost function Found(ts: map<Id, Token>, user: int, providerId: Id, account: string): (r: Option<Id>)
    ensures r.Some? ==> IsFound(ts, user, providerId, account, r.value)
    ensures r.None? ==> forall i :: i in ts ==> !IsFound(ts, user, providerId, account, i)
  {
    if i :| IsFound(ts, user, providerId, account, i) then Some(i) else None
  }

  /** The second half of completeCore, for a claimed state row of `owner` and `provider`. */
  ghost function Connect(t: Tables, owner: int, provider: string, g: Grant, now: int, newRow: Id): (Tables, Result<(), Error>) {
    match ManifestOf(t.manifests, owner, OAUTH, provider)
    case None => (t, Err(UnknownProvider))
    case Some(m) =>
      var pid := t.manifests[m].providerId;
      match ConfigOf(t.configs, owner, pid)
      case None => (t, Err(NoConfig))
      case Some(c) =>
        var g' := if g.scopes != "" then g else g.(scopes := t.configs[c].scopes);
        (StoreToken(t, Found(t.tokens, owner, pid, g.account), owner, pid, provider, g', now, newRow), Ok(()))
  }

  /** UpdateOAuthToken at the end of a refresh: the identity of the row does not change. */
  function Refreshed(t: Tables, i: Id, access: string, refresh: string, expiresAt: Option<int>): Tables {
    if i !in t.tokens then t
    else
      var k := t.tokens[i];
      t.(tokens := t.tokens[i := k.(access := access, refresh := if refresh != "" then refresh else k.refresh, expiresAt := expiresAt)])
  }

  function RemoveToken(t: Tables, user: int, i: Id): Tables {
    if i in t.tokens && t.tokens[i].user == user then t.(tokens := t.tokens - {i}) else t
  }

  // ---- the relational invariant ----

  ghost predicate ManifestsOk(ms: map<Id, Manifest>) {
    && (forall i :: i in ms ==> ms[i].kind == OAUTH && ms[i].providerId != NIL)
    && (forall i, j :: i in ms && j in ms && IsManifest(ms[i], ms[j].user, ms[j].kind, ms[j].key) ==> i == j)
    && (forall i, j :: i in ms && j in ms && ms[i].providerId == ms[j].providerId ==> i == j)
  }

  /** A provider of the user with this id. */
  ghost predicate Provides(ms: map<Id, Manifest>, user: int, providerId: Id) {
    exists i :: i in ms && ms[i].user == user && ms[i].providerId == providerId
  }

  ghost predicate ConfigsOk(cs: map<Id, Config>, ms: map<Id, Manifest>) {
    && (forall i :: i in cs ==> Provides(ms, cs[i].user, cs[i].providerId))
    && (forall i, j :: i in cs && j in cs && IsConfig(cs[i], cs[j].user, cs[j].providerId) ==> i == j)
  }

  ghost predicate TokensOk(ts: map<Id, Token>, ms: map<Id, Manifest>) {
    && (forall i :: i in ts ==> ts[i].account != "" && Provides(ms, ts[i].user, ts[i].providerId))
    && (forall i, j :: i in ts && j in ts && MatchesToken(ts[i], ts[j].user, ts[j].providerId, ts[j].account) ==> i == j)
  }

  ghost predicate Inv(t: Tables) {
    ManifestsOk(t.manifests) && ConfigsOk(t.configs, t.manifests) && TokensOk(t.tokens, t.manifests)
  }

  datatype Op =
    | SaveProviderOp(user: int, key: string, parent: Id, doc: string, newRow: Id, newProvider: Id)
    | RemoveProviderOp(user: int, kind: string, key: string)
    | SaveConfigOp(user: int, key: string, clientId: string, secret: string, scopes: string, redirect: Option<string>, newRow: Id)
    | RemoveConfigOp(user: int, row: Id)
    | ConnectOp(user: int, key: string, grant: Grant, now: int, newRow: Id)
    | RefreshOp(row: Id, access: string, refresh: string, expiresAt: Option<int>)
    | RemoveTokenOp(user: int, row: Id)

  ghost function Apply(t: Tables, op: Op): Tables {
    match op
    case SaveProviderOp(user, key, parent, doc, newRow, newProvider) => SaveProvider(t, user, key, parent, doc, newRow, newProvider)
    case RemoveProviderOp(user, kind, key) => RemoveProvider(t, user, kind, key)
    case SaveConfigOp(user, key, clientId, secret, scopes, redirect, newRow) =>
      SaveConfig(t, user, key, clientId, secret, scopes, redirect, newRow).0
    case RemoveConfigOp(user, row) => RemoveConfig(t, user, row)
    case ConnectOp(user, key, grant, now, newRow) => Connect(t, user, key, grant, now, newRow).0
    case RefreshOp(row, access, refresh, expiresAt) => Refreshed(t, row, access, refresh, expiresAt)
    case RemoveTokenOp(user, row) => RemoveToken(t, user, row)
  }

  /** uuid.New never repeats an id, and the account of a grant is fetchAccount's. */
  ghost predicate Fresh(t: Tables, op: Op) {
    match op
    case SaveProviderOp(user, key, parent, doc, newRow, newProvider) =>
      newRow !in t.manifests && newProvider != NIL && forall i :: i in t.manifests ==> t.manifests[i].providerId != newProvider
    case SaveConfigOp(user, key, clientId, secret, scopes, redirect, newRow) => newRow !in t.configs
    case ConnectOp(user, key, grant, now, newRow) => newRow !in t.tokens && grant.account != ""
    case _ => true
  }

  ghost predicate FreshAll(t: Tables, ops: seq<Op>) {
    ops == [] || (FreshAll(t, ops[..|ops| - 1]) && Fresh(Run(t, ops[..|ops| - 1]), ops[|ops| - 1]))
  }

  ghost function Run(t: Tables, ops: seq<Op>): Tables {
    if ops == [] then t else Apply(Run(t, ops[..|ops| - 1]), ops[|ops| - 1])
  }

  const EMPTY := Tables(map[], map[], map[])

  /** A table whose providers only grow or keep their ids stays attached. */
  lemma ProvidesKept(ms: map<Id, Manifest>, ms': map<Id, Manifest>)
    requires forall i :: i in ms ==> i in ms' && ms'[i].user == ms[i].user && ms'[i].providerId == ms[i].providerId
    ensures forall u, p :: Provides(ms, u, p) ==> Provides(ms', u, p)
  {
    forall u, p | Provides(ms, u, p) ensures Provides(ms', u, p) {
      var i :| i in ms && ms[i].user == u && ms[i].providerId == p;
      assert i in ms' && ms'[i].user == u;
    }
  }

  lemma ManifestEditOk(ms: map<Id, Manifest>, i: Id, m: Manifest)
    requires ManifestsOk(ms) && i in ms && IsManifest(m, ms[i].user, ms[i].kind, ms[i].key) && m.providerId == ms[i].providerId
    ensures ManifestsOk(ms[i := m])
  {}

  lemma ManifestInsertOk(ms: map<Id, Manifest>, i: Id, m: Manifest)
    requires ManifestsOk(ms) && i !in ms && m.kind == OAUTH && m.providerId != NIL
    requires forall j :: j in ms ==> !IsManifest(ms[j], m.user, m.kind, m.key) && ms[j].providerId != m.providerId
    ensures ManifestsOk(ms[i := m])
  {}

  lemma SaveProviderKeepsInv(t: Tables, op: Op)
    requires Inv(t) && op.SaveProviderOp? && Fresh(t, op)
    ensures Inv(Apply(t, op))
  {
    var ms, ms' := t.manifests, Apply(t, op).manifests;
    var i := ManifestOf(ms, op.user, OAUTH, op.key);
    if i.Some? {
      if ms' != ms { ManifestEditOk(ms, i.value, ms'[i.value]); }
    } else if ValidSlug(op.key) {
      ManifestInsertOk(ms, op.newRow, ms'[op.newRow]);
    }
    ProvidesKept(ms, ms');
  }

  lemma RemoveProviderKeepsInv(t: Tables, user: int, kind: string, key: string)
    requires Inv(t)
    ensures Inv(RemoveProvider(t, user, kind, key))
  {
    var found := ManifestOf(t.manifests, user, kind, key);
    if found.Some? {
      var pid := t.manifests[found.value].providerId;
      var ms := t.manifests - {found.value};
      forall u, p | Provides(t.manifests, u, p) && (u != user || p != pid) ensures Provides(ms, u, p) {
        var i :| i in t.manifests && t.manifests[i].user == u && t.manifests[i].providerId == p;
        assert i in ms;
      }
    }
  }

  lemma SaveConfigKeepsInv(t: Tables, op: Op)
    requires Inv(t) && op.SaveConfigOp? && Fresh(t, op)
    ensures Inv(Apply(t, op))
  {
    var m := ManifestOf(t.manifests, op.user, OAUTH, op.key);
    if m.Some? {
      assert Provides(t.manifests, op.user, t.manifests[m.value].providerId);
    }
  }

  /** With a named account there is at most one match, and Found finds it. */
  lemma FoundIsTheMatch(t: Tables, user: int, pid: Id, account: string)
    requires TokensOk(t.tokens, t.manifests) && account != ""
    ensures Found(t.tokens, user, pid, account).None? ==> NoToken(t.tokens, user, pid, account)
    ensures forall i :: i in t.tokens && MatchesToken(t.tokens[i], user, pid, account) ==> Found(t.tokens, user, pid, account) == Some(i)
  {
    forall i | i in t.tokens && MatchesToken(t.tokens[i], user, pid, account) ensures IsFound(t.tokens, user, pid, account, i) {}
  }

  lemma ConnectKeepsInv(t: Tables, op: Op)
    requires Inv(t) && op.ConnectOp? && Fresh(t, op)
    ensures Inv(Apply(t, op))
  {
    var m := ManifestOf(t.manifests, op.user, OAUTH, op.key);
    if m.Some? {
      var pid := t.manifests[m.value].providerId;
      assert Provides(t.manifests, op.user, pid);
      FoundIsTheMatch(t, op.user, pid, op.grant.account);
    }
  }

  lemma ApplyKeepsInv(t: Tables, op: Op)
    requires Inv(t) && Fresh(t, op)
    ensures Inv(Apply(t, op))
  {
    match op
    case SaveProviderOp(_, _, _, _, _, _) => SaveProviderKeepsInv(t, op);
    case RemoveProviderOp(user, kind, key) => RemoveProviderKeepsInv(t, user, kind, key);
    case SaveConfigOp(_, _, _, _, _, _, _) => SaveConfigKeepsInv(t, op);
    case RemoveConfigOp(_, _) =>
    case ConnectOp(_, _, _, _, _) => ConnectKeepsInv(t, op);
    case RefreshOp(_, _, _, _) =>
    case RemoveTokenOp(_, _) =>
  }

  /** Over every sequence of service operations: keys and provider ids are unique, every config and token
      hangs on a provider of its user, and there is one config per provider and one token per account. */
  lemma {:induction false} RunKeepsInv(t: Tables, ops: seq<Op>)
    requires Inv(t) && FreshAll(t, ops)
    ensures Inv(Run(t, ops))
  {
    if ops != [] {
      RunKeepsInv(t, ops[..|ops| - 1]);
      ApplyKeepsInv(Run(t, ops[..|ops| - 1]), ops[|ops| - 1]);
    }
  }

  // ---- what single operations leave alone ----

  /** A provider's id never changes while the provider exists, whatever else is done. */
  lemma {:induction false} ProviderIdIsStable(t: Tables, ops: seq<Op>, user: int, key: string, i: Id)
    requires Inv(t) && FreshAll(t, ops) && ManifestOf(t.manifests, user, OAUTH, key) == Some(i)
    requires forall k :: 0 <= k < |ops| ==> ops[k] != RemoveProviderOp(user, OAUTH, key)
    ensures ManifestOf(Run(t, ops).manifests, user, OAUTH, key) == Some(i)
    ensures Run(t, ops).manifests[i].providerId == t.manifests[i].providerId
  {
    if ops != [] {
      var before, last := ops[..|ops| - 1], ops[|ops| - 1];
      ProviderIdIsStable(t, before, user, key, i);
      RunKeepsInv(t, before);
      RunKeepsInv(t, ops);
      OneStepKeepsProvider(Run(t, before), last, user, key, i);
    }
  }

  lemma OneStepKeepsProvider(t: Tables, op: Op, user: int, key: string, i: Id)
    requires Inv(t) && Fresh(t, op) && ManifestOf(t.manifests, user, OAUTH, key) == Some(i)
    requires op != RemoveProviderOp(user, OAUTH, key)
    ensures ManifestOf(Apply(t, op).manifests, user, OAUTH, key) == Some(i)
    ensures Apply(t, op).manifests[i].providerId == t.manifests[i].providerId
  {
    ApplyKeepsInv(t, op);
    assert i in Apply(t, op).manifests && IsManifest(Apply(t, op).manifests[i], user, OAUTH, key);
  }

  /** Removing a provider leaves nothing of it behind, and touches no row of another user or provider. */
  lemma CascadeIsExact(t: Tables, user: int, kind: string, key: string)
    requires Inv(t)
    ensures var t' := RemoveProvider(t, user, kind, key);
            match ManifestOf(t.manifests, user, kind, key)
            case None => t' == t
            case Some(i) =>
              var pid := t.manifests[i].providerId;
              && (forall j :: j in t'.manifests ==> t'.manifests[j].providerId != pid)
              && (forall j :: j in t'.configs ==> t'.configs[j].providerId != pid)
              && (forall j :: j in t'.tokens ==> t'.tokens[j].providerId != pid)
              && (forall j :: j in t.manifests && (t.manifests[j].user != user || t.manifests[j].key != key) ==>
                    j in t'.manifests && t'.manifests[j] == t.manifests[j])
              && (forall j :: j in t.configs && (t.configs[j].user != user || t.configs[j].providerId != pid) ==>
                    j in t'.configs && t'.configs[j] == t.configs[j])
              && (forall j :: j in t.tokens && (t.tokens[j].user != user || t.tokens[j].providerId != pid) ==>
                    j in t'.tokens && t'.tokens[j] == t.tokens[j])
              && t'.manifests.Keys <= t.manifests.Keys && t'.configs.Keys <= t.configs.Keys && t'.tokens.Keys <= t.tokens.Keys
  {}

  /** Saving a config is refused, with nothing changed, exactly without a provider, or without a secret for a
      provider that has no config. Otherwise it leaves one config of the provider, with the given fields and,
      when the secret is blank, the secret it had; no other row changes. */
  lemma SaveConfigTouchesOneRow(t: Tables, user: int, provider: string, clientId: string, secret: string, scopes: string,
                                redirect: Option<string>, newRow: Id)
    requires Inv(t) && newRow !in t.configs
    ensures var (t', r) := SaveConfig(t, user, provider, clientId, secret, scopes, redirect, newRow);
            match ManifestOf(t.manifests, user, OAUTH, provider)
            case None => t' == t && r == Err(UnknownProvider)
            case Some(m) =>
              var pid := t.manifests[m].providerId;
              && (r.Err? <==> secret == "" && forall c :: c in t.configs ==> !IsConfig(t.configs[c], user, pid))
              && (r.Err? ==> t' == t && r == Err(SecretRequired))
              && (r.Ok? ==>
                    && t'.manifests == t.manifests && t'.tokens == t.tokens && r.value in t'.configs
                    && (forall c :: c in t'.configs && c != r.value ==>
                          c in t.configs && t'.configs[c] == t.configs[c] && !IsConfig(t'.configs[c], user, pid))
                    && t.configs.Keys <= t'.configs.Keys
                    && (secret == "" ==> r.value in t.configs)
                    && t'.configs[r.value] == Config(user, pid, provider, clientId,
                                                     if secret != "" then secret else t.configs[r.value].secret, scopes, redirect))
  {}

  /** Completion is not one transaction: the provider can be removed, or the same account connected,
      between its lookups and its insert. The insert then keeps the tables in order exactly when the
      provider is still there and the account still has no row. OAuthRaces carries this to whole runs. */
  lemma LateInsertKeepsInvIff(t: Tables, owner: int, pid: Id, provider: string, g: Grant, now: int, newRow: Id)
    requires Inv(t) && g.account != "" && newRow !in t.tokens
    ensures Inv(StoreToken(t, None, owner, pid, provider, g, now, newRow)) <==>
            Provides(t.manifests, owner, pid) && NoToken(t.tokens, owner, pid, g.account)
  {
    var t' := StoreToken(t, None, owner, pid, provider, g, now, newRow);
    assert newRow in t'.tokens && MatchesToken(t'.tokens[newRow], owner, pid, g.account);
    if !NoToken(t.tokens, owner, pid, g.account) {
      var i :| i in t.tokens && MatchesToken(t.tokens[i], owner, pid, g.account);
      assert MatchesToken(t'.tokens[i], t'.tokens[newRow].user, t'.tokens[newRow].providerId, t'.tokens[newRow].account);
    }
  }

  /** Of a config inserted on an earlier lookup likewise: the tables stay in order exactly when the provider is
      still there and has no config. */
  lemma LateConfigKeepsInvIff(t: Tables, newRow: Id, c: Config)
    requires Inv(t) && newRow !in t.configs
    ensures Inv(t.(configs := t.configs[newRow := c])) <==>
            Provides(t.manifests, c.user, c.providerId) && NoConfigOf(t.configs, c.user, c.providerId)
  {
    var cs := t.configs[newRow := c];
    assert newRow in cs && IsConfig(cs[newRow], c.user, c.providerId);
    if i :| i in t.configs && IsConfig(t.configs[i], c.user, c.providerId) {
      assert IsConfig(cs[i], cs[newRow].user, cs[newRow].providerId);
    }
  }

  /** And of a provider with a new id: exactly when there is none of its key. */
  lemma LateProviderKeepsInvIff(t: Tables, newRow: Id, m: Manifest)
    requires Inv(t) && newRow !in t.manifests && m.kind == OAUTH && m.providerId != NIL
    requires forall i :: i in t.manifests ==> t.manifests[i].providerId != m.providerId
    ensures Inv(t.(manifests := t.manifests[newRow := m])) <==>
            NoManifestOf(t.manifests, m.user, m.kind, m.key)
  {
    var ms := t.manifests[newRow := m];
    ProvidesKept(t.manifests, ms);
    if i :| i in t.manifests && IsManifest(t.manifests[i], m.user, m.kind, m.key) {
      assert IsManifest(ms[i], ms[newRow].user, ms[newRow].kind, ms[newRow].key);
    } else {
      ManifestInsertOk(t.manifests, newRow, m);
    }
  }

  /** The account has to be named: storeToken would overwrite the row of some other account exactly when
      the account is empty and the user has any account connected at that provider. */
  lemma EmptyAccountOverwrites(t: Tables, owner: int, pid: Id, account: string)
    requires TokensOk(t.tokens, t.manifests)
    ensures (var found := Found(t.tokens, owner, pid, account); found.Some? && t.tokens[found.value].account != account)
            <==> account == "" && !NoToken(t.tokens, owner, pid, "")
  {
    if account == "" && !NoToken(t.tokens, owner, pid, "") {
      var j := NewestMatch(t.tokens, t.tokens.Keys, owner, pid);
      assert IsFound(t.tokens, owner, pid, "", j);
    }
  }

  lemma {:induction false} NewestMatch(ts: map<Id, Token>, among: set<Id>, user: int, pid: Id) returns (n: Id)
    requires among <= ts.Keys && exists i :: i in among && MatchesToken(ts[i], user, pid, "")
    ensures n in among && MatchesToken(ts[n], user, pid, "")
    ensures forall j :: j in among && MatchesToken(ts[j], user, pid, "") ==> ts[j].createdAt <= ts[n].createdAt
    decreases among
  {
    var i :| i in among && MatchesToken(ts[i], user, pid, "");
    var rest := among - {i};
    if exists j :: j in rest && MatchesToken(ts[j], user, pid, "") {
      var m := NewestMatch(ts, rest, user, pid);
      n := if ts[m].createdAt >= ts[i].createdAt then m else i;
    } else {
      n := i;
    }
  }
}
