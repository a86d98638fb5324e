/** What overlapping service calls do to each other: inserts that lose their place, and updates that are
    decided on a row read earlier. */
module OAuthOverlaps {
  import opened Basics
  import opened OAuthTables
  import opened OAuthRaces

  // ---- two overlapping calls, and one with a deletion in it ----

  /** The ids two writes need, none of them used before. */
  predicate FreshIds(t: Tables, a: Id, p: Id, b: Id, q: Id) {
    {a, p, b, q} !! Init(t).used && a != p && b != q && a != b && a != q && p != b && p != q
  }

  /** Both calls make all their lookups, then the first writes, then the second. */
  lemma TwoOverlap(t: Tables, x: Call, y: Call, now: int, a: Id, p: Id, b: Id, q: Id) returns (once: seq<Move>, twice: seq<Move>)
    requires Opens(x) && Opens(y) && AfterLooks(t, x).phase.Writing? && AfterLooks(t, y).phase.Writing? && FreshIds(t, a, p, b, q)
    ensures var t1 := Written(t, AfterLooks(t, x), now, a, p); var s1 := Exec(Init(t), once);
            && s1.t == t1 && s1.used == Init(t).used + {a, p} && 2 in s1.calls && s1.calls[2] == AfterLooks(t, y)
            && Exec(Init(t), twice).t == Written(t1, AfterLooks(t, y), now, b, q)
  {
    assert Exec(Init(t), []) == Init(t);
    once := RunsToWrite(Init(t), [], 1, x);
    once := RunsToWrite(Init(t), once, 2, y);
    once := Then(Init(t), once, Write(1, now, a, p));
    twice := Then(Init(t), once, Write(2, now, b, q));
  }

  /** A call makes all its lookups, a deletion follows, then the call writes. */
  lemma DeletionBetween(t: Tables, c: Call, op: Op, now: int, a: Id, p: Id) returns (before: seq<Move>, moves: seq<Move>)
    requires Opens(c) && AfterLooks(t, c).phase.Writing? && Deletes(op) && {a, p} !! Init(t).used && a != p
    ensures var s := Exec(Init(t), before);
            s == State(Apply(t, op), Init(t).used, map[1 := AfterLooks(t, c)])
    ensures var s := Exec(Init(t), moves);
            && s.t == Written(Apply(t, op), AfterLooks(t, c), now, a, p)
            && 1 in s.calls && s.calls[1] == AfterLooks(t, c).(phase := Ended)
  {
    assert Exec(Init(t), []) == Init(t);
    before := RunsToWrite(Init(t), [], 1, c);
    before := Then(Init(t), before, Delete(op));
    moves := Then(Init(t), before, Write(1, now, a, p));
  }

  // ---- inserts that come too late ----

  /** A call that inserts and has just looked finds the place free. */
  lemma JustLookedHasPlace(t: Tables, c: Call)
    requires Inv(t) && Opens(c) && AfterLooks(t, c).phase.Writing? && Blank(AfterLooks(t, c).job) && !c.job.Refresh?
    ensures HasPlace(t, AfterLooks(t, c))
  {
    var c' := AfterLooks(t, c);
    if c.job.Completion? {
      CompletionLooks(t, c);
      var m := ManifestOf(t.manifests, c.user, OAUTH, c.job.key);
      assert Provides(t.manifests, c'.user, t.manifests[m.value].providerId);
      FoundIsTheMatch(t, c'.user, c'.pid, c'.job.grant.account);
    } else if c.job.ConfigSave? {
      var m := ManifestOf(t.manifests, c.user, OAUTH, c.job.provider);
      assert Provides(t.manifests, c'.user, t.manifests[m.value].providerId);
    }
  }

  /** Two rows for one account, config or key. */
  predicate Twins(t: Tables, job: Job, a: Id, b: Id) {
    match job
    case Completion(_, _, _) => a in t.tokens && b in t.tokens && t.tokens[a] == t.tokens[b]
    case ConfigSave(_, _, _, _, _, _) => a in t.configs && b in t.configs && t.configs[a] == t.configs[b]
    case ProviderSave(_, _, _, _) =>
      a in t.manifests && b in t.manifests && IsManifest(t.manifests[a], t.manifests[b].user, t.manifests[b].kind, t.manifests[b].key)
      && t.manifests[a].providerId != t.manifests[b].providerId
    case Refresh(_, _) => false
  }

  /** What was inserted takes the place. */
  lemma PlaceIsTaken(t: Tables, c: Call, now: int, a: Id, p: Id)
    requires Blank(c.job) && !c.job.Refresh? && a !in t.tokens && a !in t.configs && a !in t.manifests
    ensures !HasPlace(Written(t, c, now, a, p), c)
  {
    var t' := Written(t, c, now, a, p);
    match c.job
    case Completion(_, grant, _) => assert MatchesToken(t'.tokens[a], c.user, c.pid, grant.account);
    case ConfigSave(_, _, _, _, _, _) => assert IsConfig(t'.configs[a], c.user, c.pid);
    case ProviderSave(slug, _, _, _) => assert IsManifest(t'.manifests[a], c.user, OAUTH, slug);
  }

  lemma WritesTwins(t: Tables, c: Call, now: int, a: Id, p: Id, b: Id, q: Id)
    requires Blank(c.job) && !c.job.Refresh? && a != b && p != q
    ensures Twins(Written(Written(t, c, now, a, p), c, now, b, q), c.job, a, b)
  {}

  lemma SecondInsertDisturbs(t: Tables, c: Call, now: int, a: Id, p: Id, b: Id, q: Id, used: set<Id>)
    requires Inv(t) && IdsUsed(t, used) && CallOk(c, t, used) && Blank(c.job) && !c.job.Refresh? && HasPlace(t, c)
    requires a !in used && p !in used && b !in used + {a, p} && q !in used + {a, p}
    ensures var t1 := Written(t, c, now, a, p); Inv(t1) && !Inv(Written(t1, c, now, b, q))
  {
    var t1 := Written(t, c, now, a, p);
    InsertKeepsInvIff(t, c, now, a, p, used);
    InsertKeeps(t, c, now, a, p, used);
    PlaceIsTaken(t, c, now, a, p);
    KeptCallOk(c, t, t1, used, used + {a, p});
    InsertKeepsInvIff(t1, c, now, b, q, used + {a, p});
  }

  lemma LooksAreOk(t: Tables, c: Call)
    requires Inv(t) && Opens(c)
    ensures IdsUsed(t, Init(t).used) && CallOk(AfterLooks(t, c), t, Init(t).used)
  {
    LookedIsOk(t, c, Init(t).used);
    LookedIsOk(t, Looked(t, c), Init(t).used);
    LookedIsOk(t, Looked(t, Looked(t, c)), Init(t).used);
  }

  lemma LooksKeepJob(t: Tables, c: Call)
    requires Opens(c)
    ensures var j, j' := c.job, AfterLooks(t, c).job;
            (j.Completion? <==> j'.Completion?) && (j.Refresh? <==> j'.Refresh?) && (j.ConfigSave? <==> j'.ConfigSave?)
  {}

  /** Two completions for one account, two saves of a first config, two saves of a new provider: both find
      nothing, both insert, and the second leaves two rows where there may be one. */
  lemma TwoInsertsDuplicate(t: Tables, c: Call, now: int, a: Id, p: Id, b: Id, q: Id)
    returns (once: seq<Move>, twice: seq<Move>)
    requires Inv(t) && Opens(c) && AfterLooks(t, c).phase.Writing? && Blank(AfterLooks(t, c).job) && !c.job.Refresh?
    requires FreshIds(t, a, p, b, q)
    ensures Inv(Exec(Init(t), once).t)
    ensures !Inv(Exec(Init(t), twice).t) && Twins(Exec(Init(t), twice).t, c.job, a, b)
  {
    var c' := AfterLooks(t, c);
    once, twice := TwoOverlap(t, c, c, now, a, p, b, q);
    JustLookedHasPlace(t, c);
    LooksAreOk(t, c);
    LooksKeepJob(t, c);
    SecondInsertDisturbs(t, c', now, a, p, b, q, Init(t).used);
    WritesTwins(t, c', now, a, p, b, q);
  }

  /** A token or config that hangs on no provider. */
  ghost predicate Orphan(t: Tables, job: Job, a: Id) {
    match job
    case Completion(_, _, _) => a in t.tokens && !Provides(t.manifests, t.tokens[a].user, t.tokens[a].providerId)
    case ConfigSave(_, _, _, _, _, _) => a in t.configs && !Provides(t.manifests, t.configs[a].user, t.configs[a].providerId)
    case _ => false
  }

  function ProviderOf(job: Job): string {
    match job case Completion(key, _, _) => key case ConfigSave(key, _, _, _, _, _) => key case _ => ""
  }

  lemma RemovalTakesPlace(t: Tables, c: Call)
    requires Inv(t) && Opens(c) && (c.job.Completion? || c.job.ConfigSave?) && AfterLooks(t, c).phase.Writing?
    ensures !Provides(RemoveProvider(t, c.user, OAUTH, ProviderOf(c.job)).manifests, c.user, AfterLooks(t, c).pid)
  {
    if c.job.Completion? { CompletionLooks(t, c); }
    var m := ManifestOf(t.manifests, c.user, OAUTH, ProviderOf(c.job)).value;
    assert AfterLooks(t, c).pid == t.manifests[m].providerId;
  }

  lemma WritesOrphan(t: Tables, c: Call, now: int, a: Id, p: Id)
    requires Blank(c.job) && (c.job.Completion? || c.job.ConfigSave?) && !Provides(t.manifests, c.user, c.pid)
    ensures var t' := Written(t, c, now, a, p); Orphan(t', c.job, a) && !Inv(t')
  {}

  /** A provider removed between the lookups of a completion or a config save and its insert leaves a row that
      hangs on no provider. */
  lemma InsertAfterRemovalOrphans(t: Tables, c: Call, now: int, a: Id, p: Id) returns (moves: seq<Move>)
    requires Inv(t) && Opens(c) && AfterLooks(t, c).phase.Writing? && Blank(AfterLooks(t, c).job)
    requires c.job.Completion? || c.job.ConfigSave?
    requires {a, p} !! Init(t).used && a != p
    ensures var t' := Exec(Init(t), moves).t; !Inv(t') && Orphan(t', c.job, a)
  {
    var remove := RemoveProviderOp(c.user, OAUTH, ProviderOf(c.job));
    var _, run := DeletionBetween(t, c, remove, now, a, p);
    moves := run;
    LooksKeepJob(t, c);
    RemovalTakesPlace(t, c);
    LooksKeepUser(t, c);
    WritesOrphan(Apply(t, remove), AfterLooks(t, c), now, a, p);
  }

  lemma LooksKeepUser(t: Tables, c: Call)
    requires Opens(c)
    ensures AfterLooks(t, c).user == c.user
  {}

  // ---- what comes between a lookup and an update ----

  /** The move updates token row i. */
  ghost predicate Updates(s: State, move: Move, i: Id) {
    Writes(s, move) && var w := TokenWrite(s.calls[move.cid].job); w.Some? && w.value.0 == i
  }

  /** The refresh token that the last update of row i in the moves wrote. */
  ghost function LastUpdate(s: State, moves: seq<Move>, i: Id): Option<string> {
    if moves == [] then None
    else
      var before, last := Exec(s, moves[..|moves| - 1]), moves[|moves| - 1];
      if Updates(before, last, i) then Some(TokenWrite(before.calls[last.cid].job).value.1.refresh)
      else LastUpdate(s, moves[..|moves| - 1], i)
  }

  /** The move deletes token row i: by its id, or with its provider. */
  ghost predicate Removes(s: State, move: Move, i: Id) {
    i in s.t.tokens && move.Delete? &&
    match move.op
    case RemoveTokenOp(user, row) => row == i && s.t.tokens[i].user == user
    case RemoveProviderOp(user, kind, key) =>
      var m := ManifestOf(s.t.manifests, user, kind, key);
      m.Some? && s.t.tokens[i].user == user && s.t.tokens[i].providerId == s.t.manifests[m.value].providerId
    case _ => false
  }

  ghost predicate NoneRemoves(s: State, moves: seq<Move>, i: Id) {
    moves == [] ||
    (NoneRemoves(s, moves[..|moves| - 1], i) && !Removes(Exec(s, moves[..|moves| - 1]), moves[|moves| - 1], i))
  }

  /** One move on row i leaves it there unless it removes it, and leaves its refresh token unless it updates it. */
  ghost predicate OnRow(s: State, move: Move, i: Id) {
    var s' := Step(s, move);
    && i in s'.used && (i in s'.t.tokens <==> i in s.t.tokens && !Removes(s, move, i))
    && (i in s'.t.tokens ==>
          s'.t.tokens[i].refresh == if Updates(s, move, i) then TokenWrite(s.calls[move.cid].job).value.1.refresh
                                    else s.t.tokens[i].refresh)
  }

  lemma DeleteOnRow(s: State, move: Move, i: Id)
    requires Safe(s) && i in s.used && move.Delete?
    ensures OnRow(s, move, i)
  {}

  lemma WriteOnRow(s: State, move: Move, i: Id)
    requires i in s.used && move.Write?
    ensures OnRow(s, move, i)
  {}

  lemma StepOnRow(s: State, move: Move, i: Id)
    requires Safe(s) && i in s.used
    ensures OnRow(s, move, i)
  {
    match move
    case Delete(_) => DeleteOnRow(s, move, i);
    case Write(_, _, _, _) => WriteOnRow(s, move, i);
    case Begin(_, _) =>
    case Look(_) =>
  }

  /** A token row that has been read is still there if and only if no move since then removed it; and its
      refresh token is the one its last update since then wrote. */
  lemma {:induction false} RowSince(s: State, moves: seq<Move>, i: Id)
    requires Safe(s) && i in s.t.tokens
    ensures var s' := Exec(s, moves);
            && i in s'.used && (i in s'.t.tokens <==> NoneRemoves(s, moves, i))
            && (i in s'.t.tokens ==>
                  var last := LastUpdate(s, moves, i);
                  s'.t.tokens[i].refresh == if last.Some? then last.value else s.t.tokens[i].refresh)
  {
    if moves != [] {
      var before := moves[..|moves| - 1];
      RowSince(s, before, i);
      ExecKeepsSafe(s, before);
      StepOnRow(Exec(s, before), moves[|moves| - 1], i);
    }
  }

  /** The call has read token row i as it is now and is about to write it. */
  ghost predicate HasRead(s: State, cid: Cid, i: Id) {
    At(s, cid, Writing) && i in s.t.tokens && ReadCopy(s.calls[cid].job) == Some((i, s.t.tokens[i]))
  }

  function ReadCopy(job: Job): Option<(Id, Token)> {
    match job case Completion(_, _, token) => token case Refresh(_, prior) => prior case _ => None
  }

  function GrantOf(job: Job): Option<Grant> {
    match job case Completion(_, grant, _) => Some(grant) case Refresh(renewal, _) => Some(renewal) case _ => None
  }

  /** After any moves since a completion or refresh read the row, its write stores what was granted if and only
      if no move removed the row; else it changes nothing, though the call succeeds. */
  lemma LateUpdateStoresIff(s: State, cid: Cid, i: Id, moves: seq<Move>, write: Move)
    requires Safe(s) && HasRead(s, cid, i)
    requires var s' := Exec(s, moves); Writes(s', write) && write.cid == cid && s'.calls[cid] == s.calls[cid]
    ensures var s' := Exec(s, moves); var t' := Step(s', write).t;
            if NoneRemoves(s, moves, i) then i in t'.tokens && t'.tokens[i].access == GrantOf(s.calls[cid].job).value.access
            else i !in t'.tokens && t' == s'.t
  {
    RowSince(s, moves, i);
  }

  /** A call that was granted no refresh token means to keep the stored one. Its write changes the stored one
      if and only if some update since it read the row wrote another one and none after that wrote the same
      again. */
  lemma LateUpdateRevertsIff(s: State, cid: Cid, i: Id, moves: seq<Move>, write: Move)
    requires Safe(s) && HasRead(s, cid, i) && GrantOf(s.calls[cid].job).value.refresh == "" && NoneRemoves(s, moves, i)
    requires var s' := Exec(s, moves); Writes(s', write) && write.cid == cid && s'.calls[cid] == s.calls[cid]
    ensures var s' := Exec(s, moves); var t' := Step(s', write).t;
            && i in s'.t.tokens && i in t'.tokens
            && (t'.tokens[i].refresh != s'.t.tokens[i].refresh <==>
                  var last := LastUpdate(s, moves, i); last.Some? && last.value != s.t.tokens[i].refresh)
  {
    RowSince(s, moves, i);
  }

  // ---- and runs in which it does ----

  /** A completion or refresh of this account, made when the account has row i. */
  ghost predicate ForRow(t: Tables, c: Call, i: Id) {
    && Inv(t) && Opens(c) && GrantOf(c.job).Some? && i in t.tokens && AfterLooks(t, c).phase.Writing?
    && MatchesToken(t.tokens[i], c.user, AfterLooks(t, c).pid, GrantOf(c.job).value.account)
  }

  lemma ReadsItsRow(t: Tables, c: Call, i: Id)
    requires ForRow(t, c, i)
    ensures var c' := AfterLooks(t, c);
            ReadCopy(c'.job) == Some((i, t.tokens[i])) && GrantOf(c'.job).Some?
            && GrantOf(c'.job).value.refresh == GrantOf(c.job).value.refresh
  {
    var c' := AfterLooks(t, c);
    if c.job.Completion? { CompletionLooks(t, c); }
    FoundIsTheMatch(t, c'.user, c'.pid, GrantOf(c.job).value.account);
  }

  lemma RowIsTheMatch(t: Tables, c: Call, i: Id)
    requires ForRow(t, c, i)
    ensures var c' := AfterLooks(t, c);
            NoToken((t.tokens - {i}), c'.user, c'.pid, GrantOf(c.job).value.account) && t.tokens[i].user == c.user
  {
    var c', g := AfterLooks(t, c), GrantOf(c.job).value;
    LooksKeepUser(t, c);
    forall j | j in t.tokens && MatchesToken(t.tokens[j], c'.user, c'.pid, g.account) ensures j == i {
      assert MatchesToken(t.tokens[j], t.tokens[i].user, t.tokens[i].providerId, t.tokens[i].account);
    }
  }

  /** The row is removed between the lookup and the update: the account ends without a row. */
  lemma RemovalLosesGrant(t: Tables, c: Call, i: Id, now: int, a: Id, p: Id) returns (moves: seq<Move>)
    requires ForRow(t, c, i) && {a, p} !! Init(t).used && a != p
    ensures var s := Exec(Init(t), moves); var c' := AfterLooks(t, c);
            1 in s.calls && s.calls[1] == c'.(phase := Ended) && NoToken(s.t.tokens, c'.user, c'.pid, GrantOf(c.job).value.account)
  {
    var remove := RemoveTokenOp(c.user, i);
    var _, run := DeletionBetween(t, c, remove, now, a, p);
    moves := run;
    ReadsItsRow(t, c, i);
    RowIsTheMatch(t, c, i);
    UpdateOfGoneRow(Apply(t, remove), AfterLooks(t, c), i, now, a, p);
  }

  lemma UpdateOfGoneRow(t: Tables, c: Call, i: Id, now: int, a: Id, p: Id)
    requires ReadCopy(c.job).Some? && ReadCopy(c.job).value.0 == i && i !in t.tokens
    ensures Written(t, c, now, a, p) == t
  {}

  lemma UpdateOfRow(t: Tables, c: Call, i: Id, now: int, a: Id, p: Id)
    requires ReadCopy(c.job).Some? && ReadCopy(c.job).value.0 == i && i in t.tokens
    ensures var t' := Written(t, c, now, a, p); var granted := GrantOf(c.job).value.refresh;
            i in t'.tokens && t'.tokens[i].refresh == if granted != "" then granted else ReadCopy(c.job).value.1.refresh
  {}

  /** Two calls have read the row of one account, and the last to write wins: a refresh token that was granted
      to `first` and stored is overwritten by the one granted to `last`, or by the one it read when it was
      granted none. Either call may be a completion or a refresh: a refresh that read before a reconnect puts
      the old grant back, and a reconnect that read before a refresh puts a used-up token back. */
  lemma LastWriterWins(t: Tables, first: Call, last: Call, i: Id, now: int, a: Id, p: Id, b: Id, q: Id)
    returns (once: seq<Move>, twice: seq<Move>)
    requires ForRow(t, first, i) && ForRow(t, last, i) && GrantOf(first.job).value.refresh != "" && FreshIds(t, a, p, b, q)
    ensures var t1 := Exec(Init(t), once).t; i in t1.tokens && t1.tokens[i].refresh == GrantOf(first.job).value.refresh
    ensures var t2 := Exec(Init(t), twice).t;
            i in t2.tokens && t2.tokens[i].refresh ==
              var granted := GrantOf(last.job).value.refresh; if granted != "" then granted else t.tokens[i].refresh
  {
    once, twice := TwoOverlap(t, first, last, now, a, p, b, q);
    ReadsItsRow(t, first, i);
    ReadsItsRow(t, last, i);
    UpdateOfRow(t, AfterLooks(t, first), i, now, a, p);
    UpdateOfRow(Written(t, AfterLooks(t, first), now, a, p), AfterLooks(t, last), i, now, b, q);
  }
}
