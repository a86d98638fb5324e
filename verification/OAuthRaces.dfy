/** Service calls that overlap. No call of the OAuth services is one transaction: saving a provider looks up its
    key, saving a config looks up the provider and then its config, completing a flow looks up the provider,
    its config and the account's token row, a refresh reads a token row, and each then inserts a row or
    updates the one it found. Here any number of such calls take these steps, interleaved with each other
    and with deletions, which are one operation of the store each.

    The in-memory store accepts every insert. The unique indexes of the Postgres schema, which refuse the
    second of two rows for one provider key, config or account, are not part of this model; neither do they
    exclude a row whose provider has gone. */
module OAuthRaces {
  import opened Basics
  import opened OAuthTables

  type Cid = int

  datatype Phase =
    | Resolving    // about to look up the provider
    | Configuring  // completion: about to look up the config
    | Finding      // about to look for the row to update
    | Writing      // about to insert a row, or to update the one it found
    | Ended

  /** What a call is to do, and a copy of the row it found for it. */
  datatype Job =
    | Completion(key: string, grant: Grant, token: Option<(Id, Token)>)
    | Refresh(renewal: Grant, prior: Option<(Id, Token)>)
    | ConfigSave(provider: string, clientId: string, secret: string, scopes: string, redirect: Option<string>,
                 config: Option<(Id, Config)>)
    | ProviderSave(slug: string, parent: Id, doc: string, row: Option<(Id, Manifest)>)

  /** A call of a user; `pid` is the provider id it works on, once it has resolved it. */
  datatype Call = Call(phase: Phase, user: int, pid: Id, job: Job)

  /** `used` holds every id there ever was. */
  datatype State = State(t: Tables, used: set<Id>, calls: map<Cid, Call>)

  datatype Move =
    | Delete(op: Op)
    | Begin(cid: Cid, call: Call)
    | Look(cid: Cid)
    | Write(cid: Cid, now: int, newRow: Id, newProvider: Id)

  /** A call before its first lookup; a bad slug is refused, and a grant always names its account. */
  predicate Opens(c: Call) {
    match c.job
    case Completion(_, grant, token) => c.phase.Resolving? && token.None? && grant.account != ""
    case Refresh(renewal, found) => c.phase.Finding? && found.None? && renewal.account != ""
    case ConfigSave(_, _, _, _, _, config) => c.phase.Resolving? && config.None?
    case ProviderSave(slug, _, _, row) => c.phase.Finding? && row.None? && ValidSlug(slug)
  }

  ghost function Resolved(t: Tables, c: Call, key: string, next: Phase): Call {
    match ManifestOf(t.manifests, c.user, OAUTH, key)
    case None => c.(phase := Ended)
    case Some(m) => c.(phase := next, pid := t.manifests[m].providerId)
  }

  ghost function Scoped(t: Tables, c: Call, g: Grant): Option<Grant> {
    match ConfigOf(t.configs, c.user, c.pid)
    case None => None
    case Some(i) => Some(if g.scopes != "" then g else g.(scopes := t.configs[i].scopes))
  }

  ghost function FoundToken(t: Tables, user: int, pid: Id, account: string): Option<(Id, Token)> {
    match Found(t.tokens, user, pid, account) case None => None case Some(i) => Some((i, t.tokens[i]))
  }

  /** The last lookup. Saving a first config needs a secret, and a refresh goes on only with a row. */
  ghost function LookedUp(t: Tables, c: Call): Call {
    match c.job
    case Completion(key, grant, _) =>
      c.(phase := Writing, job := Completion(key, grant, FoundToken(t, c.user, c.pid, grant.account)))
    case Refresh(renewal, _) =>
      var found := FoundToken(t, c.user, c.pid, renewal.account);
      c.(phase := if found.Some? then Writing else Ended, job := Refresh(renewal, found))
    case ConfigSave(provider, clientId, secret, scopes, redirect, _) =>
      var i := ConfigOf(t.configs, c.user, c.pid);
      c.(phase := if i.Some? || secret != "" then Writing else Ended,
         job := ConfigSave(provider, clientId, secret, scopes, redirect, if i.Some? then Some((i.value, t.configs[i.value])) else None))
    case ProviderSave(slug, parent, doc, _) =>
      var i := ManifestOf(t.manifests, c.user, OAUTH, slug);
      c.(phase := Writing, job := ProviderSave(slug, parent, doc, if i.Some? then Some((i.value, t.manifests[i.value])) else None))
  }

  /** The next lookup of a call. */
  ghost function Looked(t: Tables, c: Call): Call {
    match (c.phase, c.job)
    case (Resolving, Completion(key, _, _)) => Resolved(t, c, key, Configuring)
    case (Resolving, ConfigSave(provider, _, _, _, _, _)) => Resolved(t, c, provider, Finding)
    case (Configuring, Completion(key, grant, token)) =>
      var g := Scoped(t, c, grant);
      if g.Some? then c.(phase := Finding, job := Completion(key, g.value, token)) else c.(phase := Ended)
    case (Finding, _) => LookedUp(t, c)
    case _ => c
  }

  /** The row a refresh writes over the one it read: the scopes stay. */
  function Refreshing(copy: Token, g: Grant): Token {
    Renewed(copy, g).(scopes := copy.scopes)
  }

  /** The token row a call has read, and what it writes over it. */
  function TokenWrite(job: Job): Option<(Id, Token)> {
    match job
    case Completion(_, grant, Some((i, copy))) => Some((i, Renewed(copy, grant)))
    case Refresh(renewal, Some((i, copy))) => Some((i, Refreshing(copy, renewal)))
    case _ => None
  }

  function PutToken(t: Tables, i: Id, row: Token): Tables {
    if i in t.tokens then t.(tokens := t.tokens[i := row]) else t
  }

  function PutConfig(t: Tables, i: Id, row: Config): Tables {
    if i in t.configs && t.configs[i].user == row.user then t.(configs := t.configs[i := row]) else t
  }

  function PutManifest(t: Tables, i: Id, row: Manifest): Tables {
    if i in t.manifests && t.manifests[i].user == row.user then t.(manifests := t.manifests[i := row]) else t
  }

  /** The insert or update at the end of a call; updating a row that is gone does nothing. */
  function Written(t: Tables, c: Call, now: int, newRow: Id, newProvider: Id): Tables {
    match c.job
    case Completion(key, grant, None) => StoreToken(t, None, c.user, c.pid, key, grant, now, newRow)
    case Completion(_, grant, Some((i, copy))) => PutToken(t, i, Renewed(copy, grant))
    case Refresh(_, None) => t
    case Refresh(renewal, Some((i, copy))) => PutToken(t, i, Refreshing(copy, renewal))
    case ConfigSave(provider, clientId, secret, scopes, redirect, None) =>
      t.(configs := t.configs[newRow := Config(c.user, c.pid, provider, clientId, secret, scopes, redirect)])
    case ConfigSave(provider, clientId, secret, scopes, redirect, Some((i, copy))) =>
      PutConfig(t, i, copy.(providerKey := provider, clientId := clientId, scopes := scopes, redirect := redirect,
                            secret := if secret != "" then secret else copy.secret))
    case ProviderSave(slug, parent, doc, None) =>
      t.(manifests := t.manifests[newRow := Manifest(c.user, OAUTH, slug, newProvider, parent, doc)])
    case ProviderSave(_, parent, doc, Some((i, copy))) =>
      PutManifest(t, i, copy.(providerId := if copy.providerId != NIL then copy.providerId else newProvider,
                              parentId := if copy.parentId != NIL then copy.parentId else parent, doc := doc))
  }

  predicate At(s: State, cid: Cid, phase: Phase) {
    cid in s.calls && s.calls[cid].phase == phase
  }

  /** The move is a write that takes place; uuid.New never repeats an id. */
  predicate Writes(s: State, move: Move) {
    move.Write? && At(s, move.cid, Writing) && move.newRow !in s.used && move.newProvider !in s.used && move.newRow != move.newProvider
  }

  predicate Deletes(op: Op) {
    op.RemoveProviderOp? || op.RemoveConfigOp? || op.RemoveTokenOp?
  }

  ghost function Step(s: State, move: Move): State {
    match move
    case Delete(op) => if Deletes(op) then s.(t := Apply(s.t, op)) else s
    case Begin(cid, call) => if cid in s.calls || !Opens(call) then s else s.(calls := s.calls[cid := call])
    case Look(cid) => if cid in s.calls then s.(calls := s.calls[cid := Looked(s.t, s.calls[cid])]) else s
    case Write(cid, now, newRow, newProvider) =>
      if !Writes(s, move) then s
      else State(Written(s.t, s.calls[cid], now, newRow, newProvider), s.used + {newRow, newProvider},
                 s.calls[cid := s.calls[cid].(phase := Ended)])
  }

  ghost function Exec(s: State, moves: seq<Move>): State {
    if moves == [] then s else Step(Exec(s, moves[..|moves| - 1]), moves[|moves| - 1])
  }

  function ProviderIds(ms: map<Id, Manifest>): set<Id> {
    set i | i in ms :: ms[i].providerId
  }

  function Init(t: Tables): State {
    State(t, t.manifests.Keys + ProviderIds(t.manifests) + t.configs.Keys + t.tokens.Keys + {NIL}, map[])
  }

  // ---- what holds in every interleaving ----

  predicate SameRow(a: Token, b: Token) {
    a.user == b.user && a.providerId == b.providerId && a.account == b.account
  }

  predicate SameProvider(a: Manifest, b: Manifest) {
    a.user == b.user && a.kind == b.kind && a.key == b.key && a.providerId == b.providerId
  }

  /** What a call found is still for the same account, provider or key, if it is still there. */
  ghost predicate CallOk(c: Call, t: Tables, used: set<Id>) {
    match c.job
    case Completion(_, grant, token) => grant.account != "" && TokenOk(token, c.user, c.pid, grant.account, t.tokens, used)
    case Refresh(renewal, found) => renewal.account != "" && TokenOk(found, c.user, c.pid, renewal.account, t.tokens, used)
    case ConfigSave(_, _, _, _, _, config) =>
      config.Some? ==>
        var (i, copy) := config.value;
        i in used && IsConfig(copy, c.user, c.pid) && (i in t.configs ==> IsConfig(t.configs[i], c.user, c.pid))
    case ProviderSave(_, _, _, row) =>
      row.Some? ==>
        var (i, copy) := row.value;
        i in used && copy.providerId != NIL && (i in t.manifests ==> SameProvider(t.manifests[i], copy))
  }

  ghost predicate TokenOk(token: Option<(Id, Token)>, user: int, pid: Id, account: string, ts: map<Id, Token>, used: set<Id>) {
    token.Some? ==>
      var (i, copy) := token.value;
      i in used && MatchesToken(copy, user, pid, account) && (i in ts ==> SameRow(ts[i], copy))
  }

  /** The call has found no row, or not looked for it yet. */
  predicate Blank(job: Job) {
    match job
    case Completion(_, _, token) => token.None?
    case Refresh(_, found) => found.None?
    case ConfigSave(_, _, _, _, _, config) => config.None?
    case ProviderSave(_, _, _, row) => row.None?
  }

  ghost predicate IdsUsed(t: Tables, used: set<Id>) {
    && NIL in used && t.manifests.Keys <= used && t.configs.Keys <= used && t.tokens.Keys <= used
    && forall i :: i in t.manifests ==>
         t.manifests[i].kind == OAUTH && t.manifests[i].providerId in used && t.manifests[i].providerId != NIL
  }

  ghost predicate Safe(s: State) {
    && IdsUsed(s.t, s.used)
    && forall c :: c in s.calls ==>
         CallOk(s.calls[c], s.t, s.used) && (s.calls[c].phase.Writing? || s.calls[c].phase.Ended? || Blank(s.calls[c].job))
  }

  /** Rows come and go, but none changes whose it is, and ids are not used twice. */
  ghost predicate Kept(t: Tables, t': Tables, used: set<Id>) {
    && (forall i :: i in t'.tokens && i in used ==> i in t.tokens && SameRow(t'.tokens[i], t.tokens[i]))
    && (forall i :: i in t'.configs && i in used ==> i in t.configs && IsConfig(t'.configs[i], t.configs[i].user, t.configs[i].providerId))
    && (forall i :: i in t'.manifests && i in used ==> i in t.manifests && SameProvider(t'.manifests[i], t.manifests[i]))
  }

  lemma KeptCallOk(c: Call, t: Tables, t': Tables, used: set<Id>, used': set<Id>)
    requires CallOk(c, t, used) && Kept(t, t', used) && used <= used'
    ensures CallOk(c, t', used')
  {}

  lemma DeleteKeeps(t: Tables, op: Op, used: set<Id>)
    requires Deletes(op) && IdsUsed(t, used)
    ensures Kept(t, Apply(t, op), used) && IdsUsed(Apply(t, op), used)
  {}

  lemma InsertKeeps(t: Tables, c: Call, now: int, newRow: Id, newProvider: Id, used: set<Id>)
    requires IdsUsed(t, used) && newRow !in used && newProvider !in used && Blank(c.job)
    ensures var t' := Written(t, c, now, newRow, newProvider); Kept(t, t', used) && IdsUsed(t', used + {newRow, newProvider})
  {}

  lemma UpdateKeeps(t: Tables, c: Call, now: int, newRow: Id, newProvider: Id, used: set<Id>)
    requires IdsUsed(t, used) && CallOk(c, t, used) && !Blank(c.job)
    ensures var t' := Written(t, c, now, newRow, newProvider);
            Kept(t, t', used) && t'.tokens.Keys == t.tokens.Keys && t'.configs.Keys == t.configs.Keys
            && t'.manifests.Keys == t.manifests.Keys
  {
    match c.job
    case Completion(_, grant, Some((i, copy))) => assert SameRow(Renewed(copy, grant), copy);
    case Refresh(renewal, Some((i, copy))) => assert SameRow(Refreshing(copy, renewal), copy);
    case ConfigSave(_, _, _, _, _, Some((i, copy))) =>
    case ProviderSave(_, _, _, Some((i, copy))) =>
  }

  lemma WrittenKeeps(t: Tables, c: Call, now: int, newRow: Id, newProvider: Id, used: set<Id>)
    requires IdsUsed(t, used) && CallOk(c, t, used) && newRow !in used && newProvider !in used
    ensures var t' := Written(t, c, now, newRow, newProvider); Kept(t, t', used) && IdsUsed(t', used + {newRow, newProvider})
  {
    if Blank(c.job) {
      InsertKeeps(t, c, now, newRow, newProvider, used);
    } else {
      UpdateKeeps(t, c, now, newRow, newProvider, used);
    }
  }

  lemma LookedIsOk(t: Tables, c: Call, used: set<Id>)
    requires IdsUsed(t, used) && CallOk(c, t, used) && (c.phase.Writing? || c.phase.Ended? || Blank(c.job))
    ensures var c' := Looked(t, c); CallOk(c', t, used) && (c'.phase.Writing? || c'.phase.Ended? || Blank(c'.job))
  {}

  lemma StepKeepsSafe(s: State, move: Move)
    requires Safe(s)
    ensures Safe(Step(s, move))
  {
    var s' := Step(s, move);
    match move {
      case Delete(op) => if Deletes(op) { DeleteKeeps(s.t, op, s.used); }
      case Look(cid) => if cid in s.calls { LookedIsOk(s.t, s.calls[cid], s.used); }
      case Write(cid, now, newRow, newProvider) =>
        if Writes(s, move) { WrittenKeeps(s.t, s.calls[cid], now, newRow, newProvider, s.used); }
      case Begin(_, _) =>
    }
    forall c | c in s'.calls ensures CallOk(s'.calls[c], s'.t, s'.used) {
      if c in s.calls && Kept(s.t, s'.t, s.used) { KeptCallOk(s.calls[c], s.t, s'.t, s.used, s'.used); }
    }
  }

  lemma {:induction false} ExecKeepsSafe(s: State, moves: seq<Move>)
    requires Safe(s)
    ensures Safe(Exec(s, moves))
  {
    if moves != [] {
      ExecKeepsSafe(s, moves[..|moves| - 1]);
      StepKeepsSafe(Exec(s, moves[..|moves| - 1]), moves[|moves| - 1]);
    }
  }

  // ---- which interleavings keep the tables in order ----

  /** What a call is about to insert has its place: the provider of a token or config is there, and there is no
      row yet for the account, the provider's config or the key. */
  ghost predicate HasPlace(t: Tables, c: Call) {
    match c.job
    case Completion(_, grant, None) => Provides(t.manifests, c.user, c.pid) && NoToken(t.tokens, c.user, c.pid, grant.account)
    case ConfigSave(_, _, _, _, _, None) => Provides(t.manifests, c.user, c.pid) && NoConfigOf(t.configs, c.user, c.pid)
    case ProviderSave(slug, _, _, None) => NoManifestOf(t.manifests, c.user, OAUTH, slug)
    case _ => true
  }

  /** If the move inserts a row, it has its place. */
  ghost predicate Timely(s: State, move: Move) {
    Writes(s, move) ==> HasPlace(s.t, s.calls[move.cid])
  }

  lemma TokenUpdateKeepsInv(t: Tables, i: Id, row: Token)
    requires Inv(t) && i in t.tokens && SameRow(t.tokens[i], row)
    ensures Inv(t.(tokens := t.tokens[i := row]))
  {}

  lemma ConfigUpdateKeepsInv(t: Tables, i: Id, row: Config)
    requires Inv(t) && i in t.configs && IsConfig(row, t.configs[i].user, t.configs[i].providerId)
    ensures Inv(t.(configs := t.configs[i := row]))
  {}

  lemma ManifestUpdateKeepsInv(t: Tables, i: Id, row: Manifest)
    requires Inv(t) && i in t.manifests && SameProvider(row, t.manifests[i])
    ensures Inv(t.(manifests := t.manifests[i := row]))
  {
    ManifestEditOk(t.manifests, i, row);
    ProvidesKept(t.manifests, t.manifests[i := row]);
  }

  lemma InsertKeepsInvIff(t: Tables, c: Call, now: int, newRow: Id, newProvider: Id, used: set<Id>)
    requires Inv(t) && IdsUsed(t, used) && CallOk(c, t, used) && newRow !in used && newProvider !in used && Blank(c.job)
    ensures Inv(Written(t, c, now, newRow, newProvider)) <==> HasPlace(t, c)
  {
    match c.job
    case Completion(key, grant, _) => LateInsertKeepsInvIff(t, c.user, c.pid, key, grant, now, newRow);
    case Refresh(_, _) =>
    case ConfigSave(provider, clientId, secret, scopes, redirect, _) =>
      LateConfigKeepsInvIff(t, newRow, Config(c.user, c.pid, provider, clientId, secret, scopes, redirect));
    case ProviderSave(slug, parent, doc, _) =>
      LateProviderKeepsInvIff(t, newRow, Manifest(c.user, OAUTH, slug, newProvider, parent, doc));
  }

  lemma UpdateKeepsInv(t: Tables, c: Call, now: int, newRow: Id, newProvider: Id, used: set<Id>)
    requires Inv(t) && CallOk(c, t, used) && !Blank(c.job)
    ensures Inv(Written(t, c, now, newRow, newProvider)) && HasPlace(t, c)
  {
    var t' := Written(t, c, now, newRow, newProvider);
    match c.job
    case Completion(_, _, Some((i, _))) => if i in t.tokens { TokenUpdateKeepsInv(t, i, t'.tokens[i]); }
    case Refresh(_, Some((i, _))) => if i in t.tokens { TokenUpdateKeepsInv(t, i, t'.tokens[i]); }
    case ConfigSave(_, _, _, _, _, Some((i, _))) => if i in t.configs { ConfigUpdateKeepsInv(t, i, t'.configs[i]); }
    case ProviderSave(_, _, _, Some((i, _))) => if i in t.manifests { ManifestUpdateKeepsInv(t, i, t'.manifests[i]); }
  }

  lemma StepKeepsInvIff(s: State, move: Move)
    requires Safe(s) && Inv(s.t)
    ensures Inv(Step(s, move).t) <==> Timely(s, move)
  {
    if Writes(s, move) {
      var c := s.calls[move.cid];
      if Blank(c.job) {
        InsertKeepsInvIff(s.t, c, move.now, move.newRow, move.newProvider, s.used);
      } else {
        UpdateKeepsInv(s.t, c, move.now, move.newRow, move.newProvider, s.used);
      }
    } else if move.Delete? && Deletes(move.op) {
      ApplyKeepsInv(s.t, move.op);
    }
  }

  /** The tables are in order after every prefix of the run. */
  ghost predicate AlwaysInOrder(s: State, moves: seq<Move>) {
    Inv(Exec(s, moves).t) && (moves == [] || AlwaysInOrder(s, moves[..|moves| - 1]))
  }

  ghost predicate AllTimely(s: State, moves: seq<Move>) {
    moves == [] ||
    (AllTimely(s, moves[..|moves| - 1]) && Timely(Exec(s, moves[..|moves| - 1]), moves[|moves| - 1]))
  }

  /** In every interleaving of all these calls and of deletions the tables stay in order all along if and only
      if everything that is inserted has its place when it is. */
  lemma {:induction false} InOrderIffTimely(t: Tables, moves: seq<Move>)
    requires Inv(t)
    ensures AlwaysInOrder(Init(t), moves) <==> AllTimely(Init(t), moves)
  {
    if moves != [] {
      var before := moves[..|moves| - 1];
      InOrderIffTimely(t, before);
      ExecKeepsSafe(Init(t), before);
      assert AlwaysInOrder(Init(t), before) ==> Inv(Exec(Init(t), before).t);
      if Inv(Exec(Init(t), before).t) { StepKeepsInvIff(Exec(Init(t), before), moves[|moves| - 1]); }
    }
  }

  // ---- nothing between ----

  /** A call when it has made all its lookups in the same tables. */
  ghost function AfterLooks(t: Tables, c: Call): Call {
    Looked(t, Looked(t, Looked(t, c)))
  }

  /** What a call does when it is one operation. */
  ghost function Atomic(t: Tables, c: Call, now: int, newRow: Id, newProvider: Id): Tables {
    match c.job
    case Completion(key, grant, _) => Connect(t, c.user, key, grant, now, newRow).0
    case Refresh(g, _) =>
      var i := Found(t.tokens, c.user, c.pid, g.account);
      if i.Some? then Refreshed(t, i.value, g.access, g.refresh, g.expiresAt) else t
    case ConfigSave(provider, clientId, secret, scopes, redirect, _) =>
      SaveConfig(t, c.user, provider, clientId, secret, scopes, redirect, newRow).0
    case ProviderSave(slug, parent, doc, _) => SaveProvider(t, c.user, slug, parent, doc, newRow, newProvider)
  }

  ghost function WrittenAlone(t: Tables, c: Call, now: int, newRow: Id, newProvider: Id): Tables {
    var c' := AfterLooks(t, c);
    if c'.phase.Writing? then Written(t, c', now, newRow, newProvider) else t
  }

  lemma CompletionLooks(t: Tables, c: Call)
    requires Opens(c) && c.job.Completion?
    ensures var m := ManifestOf(t.manifests, c.user, OAUTH, c.job.key);
            match m
            case None => AfterLooks(t, c).phase.Ended?
            case Some(i) =>
              var c' := c.(pid := t.manifests[i].providerId);
              match Scoped(t, c', c.job.grant)
              case None => AfterLooks(t, c).phase.Ended?
              case Some(g) =>
                && g.refresh == c.job.grant.refresh && g.account == c.job.grant.account && g.access == c.job.grant.access
                && AfterLooks(t, c) == c'.(phase := Writing, job := Completion(c.job.key, g, FoundToken(t, c.user, c'.pid, g.account)))
  {}

  lemma AloneIsConnect(t: Tables, c: Call, now: int, newRow: Id, newProvider: Id)
    requires Opens(c) && c.job.Completion?
    ensures WrittenAlone(t, c, now, newRow, newProvider) == Atomic(t, c, now, newRow, newProvider)
  {
    CompletionLooks(t, c);
  }

  lemma AloneIsRefreshed(t: Tables, c: Call, now: int, newRow: Id, newProvider: Id)
    requires Opens(c) && c.job.Refresh?
    ensures WrittenAlone(t, c, now, newRow, newProvider) == Atomic(t, c, now, newRow, newProvider)
  {}

  lemma AloneIsSaveConfig(t: Tables, c: Call, now: int, newRow: Id, newProvider: Id)
    requires Opens(c) && c.job.ConfigSave?
    ensures WrittenAlone(t, c, now, newRow, newProvider) == Atomic(t, c, now, newRow, newProvider)
  {}

  lemma AloneIsSaveProvider(t: Tables, c: Call, now: int, newRow: Id, newProvider: Id)
    requires Opens(c) && c.job.ProviderSave?
    ensures WrittenAlone(t, c, now, newRow, newProvider) == Atomic(t, c, now, newRow, newProvider)
  {}

  lemma Then(s0: State, moves: seq<Move>, move: Move) returns (more: seq<Move>)
    ensures Exec(s0, more) == Step(Exec(s0, moves), move)
  {
    more := moves + [move];
    assert more[..|more| - 1] == moves;
  }

  /** A call runs up to its write with nothing between. */
  lemma RunsToWrite(s0: State, moves: seq<Move>, cid: Cid, c: Call) returns (more: seq<Move>)
    requires cid !in Exec(s0, moves).calls && Opens(c)
    ensures var s := Exec(s0, moves); Exec(s0, more) == s.(calls := s.calls[cid := AfterLooks(s.t, c)])
  {
    more := Then(s0, moves, Begin(cid, c));
    more := Then(s0, more, Look(cid));
    more := Then(s0, more, Look(cid));
    more := Then(s0, more, Look(cid));
  }

  /** Any call that nothing comes between does what it does as one operation. */
  lemma AloneIsAtomic(s0: State, moves: seq<Move>, cid: Cid, c: Call, now: int, newRow: Id, newProvider: Id) returns (more: seq<Move>)
    requires cid !in Exec(s0, moves).calls && Opens(c)
    requires newRow !in Exec(s0, moves).used && newProvider !in Exec(s0, moves).used && newRow != newProvider
    ensures Exec(s0, more).t == Atomic(Exec(s0, moves).t, c, now, newRow, newProvider)
  {
    var t := Exec(s0, moves).t;
    more := RunsToWrite(s0, moves, cid, c);
    more := Then(s0, more, Write(cid, now, newRow, newProvider));
    match c.job
    case Completion(_, _, _) => AloneIsConnect(t, c, now, newRow, newProvider);
    case Refresh(_, _) => AloneIsRefreshed(t, c, now, newRow, newProvider);
    case ConfigSave(_, _, _, _, _, _) => AloneIsSaveConfig(t, c, now, newRow, newProvider);
    case ProviderSave(_, _, _, _) => AloneIsSaveProvider(t, c, now, newRow, newProvider);
  }
}
