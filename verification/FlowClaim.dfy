/** The one-time state of an OAuth flow: any number of concurrent `Complete` calls, each of which reads
    the row of its state value, checks its expiry, deletes the row to claim it, exchanges the code and
    stores a token. The calls interleave between these steps, and with further `Begin` calls and time. */
module FlowClaim {
  type Id = int
  type Cid = int  // a Complete call

  const STATE_LIFETIME := 600

  /** A row of oauth_states. */
  datatype StateRow = StateRow(state: string, owner: int, provider: string, expiresAt: int)

  datatype Phase = Reading | Checking | Claiming | Storing | Done | Failed

  /** A call with the state value it was given, the row it read and the time of its expiry check. */
  datatype Call = Call(phase: Phase, state: string, id: Id, row: StateRow, checkedAt: int)

  datatype Claim = Claim(cid: Cid, id: Id, checkedAt: int)

  datatype Write = Write(cid: Cid, id: Id, owner: int, provider: string)

  datatype State = State(
    rows: map<Id, StateRow>,
    begun: map<Id, StateRow>,  // every row a Begin has inserted
    calls: map<Cid, Call>,
    claims: seq<Claim>,
    writes: seq<Write>,        // token rows written, for whom
    clock: int)

  datatype Act =
    | Begin(newId: Id, state: string, owner: int, provider: string)
    | Complete(cid: Cid, state: string)
    | Read(cid: Cid, pick: Id)
    | Check(cid: Cid)
    | DeleteRow(cid: Cid)
    | StoreToken(cid: Cid)
    | ExchangeFails(cid: Cid)
    | Tick(d: nat)

  const NO_ROW := StateRow("", 0, "", 0)

  function Init(clock: int): State {
    State(map[], map[], map[], [], [], clock)
  }

  function SetCall(s: State, cid: Cid, c: Call): State {
    s.(calls := s.calls[cid := c])
  }

  /** Begin draws a state value and a row id that no Begin has drawn before. */
  function BeginStep(s: State, newId: Id, state: string, owner: int, provider: string): State {
    if newId in s.begun || exists i | i in s.begun :: s.begun[i].state == state then s
    else
      var row := StateRow(state, owner, provider, s.clock + STATE_LIFETIME);
      s.(rows := s.rows[newId := row], begun := s.begun[newId := row])
  }

  /** GetOAuthStateByState; `pick` is the row it finds, if there is one. */
  function ReadStep(s: State, cid: Cid, pick: Id): State
    requires cid in s.calls
  {
    var me := s.calls[cid];
    if !me.phase.Reading? then s
    else if pick in s.rows && s.rows[pick].state == me.state then
      SetCall(s, cid, me.(phase := Checking, id := pick, row := s.rows[pick]))
    else if forall i | i in s.rows :: s.rows[i].state != me.state then SetCall(s, cid, me.(phase := Failed))
    else s
  }

  function CheckStep(s: State, cid: Cid): State
    requires cid in s.calls
  {
    var me := s.calls[cid];
    if !me.phase.Checking? then s
    else if me.row.expiresAt < s.clock then SetCall(s, cid, me.(phase := Failed))
    else SetCall(s, cid, me.(phase := Claiming, checkedAt := s.clock))
  }

  /** DeleteOAuthState: the number of deleted rows says who has the claim. */
  function ClaimStep(s: State, cid: Cid): State
    requires cid in s.calls
  {
    var me := s.calls[cid];
    if !me.phase.Claiming? then s
    else if me.id !in s.rows then SetCall(s, cid, me.(phase := Failed))
    else SetCall(s.(rows := s.rows - {me.id}, claims := s.claims + [Claim(cid, me.id, me.checkedAt)]), cid, me.(phase := Storing))
  }

  function StoreStep(s: State, cid: Cid): State
    requires cid in s.calls
  {
    var me := s.calls[cid];
    if !me.phase.Storing? then s
    else SetCall(s.(writes := s.writes + [Write(cid, me.id, me.row.owner, me.row.provider)]), cid, me.(phase := Done))
  }

  function Step(s: State, act: Act): State {
    match act
    case Begin(newId, state, owner, provider) => BeginStep(s, newId, state, owner, provider)
    case Complete(cid, state) => if cid in s.calls then s else SetCall(s, cid, Call(Reading, state, 0, NO_ROW, 0))
    case Read(cid, pick) => if cid in s.calls then ReadStep(s, cid, pick) else s
    case Check(cid) => if cid in s.calls then CheckStep(s, cid) else s
    case DeleteRow(cid) => if cid in s.calls then ClaimStep(s, cid) else s
    case StoreToken(cid) => if cid in s.calls then StoreStep(s, cid) else s
    case ExchangeFails(cid) =>
      if cid in s.calls && s.calls[cid].phase.Storing? then SetCall(s, cid, s.calls[cid].(phase := Failed)) else s
    case Tick(d) => s.(clock := s.clock + d)
  }

  function Exec(s: State, acts: seq<Act>): State {
    if acts == [] then s else Step(Exec(s, acts[..|acts| - 1]), acts[|acts| - 1])
  }

  // ---- the invariant ----

  ghost predicate RowsOk(s: State) {
    && (forall i :: i in s.rows ==> i in s.begun && s.rows[i] == s.begun[i])
    && (forall i, j :: i in s.begun && j in s.begun && s.begun[i].state == s.begun[j].state ==> i == j)
  }

  /** What a call holds is the row its state value belongs to. */
  ghost predicate CallsOk(s: State) {
    forall c :: c in s.calls ==>
      var me := s.calls[c];
      && (me.phase.Checking? || me.phase.Claiming? || me.phase.Storing? || me.phase.Done? ==>
            me.id in s.begun && me.row == s.begun[me.id] && me.row.state == me.state)
      && (me.phase.Claiming? ==> me.checkedAt <= me.row.expiresAt)
  }

  ghost predicate Claimed(s: State, c: Cid, i: Id) {
    exists k :: 0 <= k < |s.claims| && s.claims[k].cid == c && s.claims[k].id == i
  }

  ghost predicate ClaimsOk(s: State) {
    && (forall k :: 0 <= k < |s.claims| ==>
          var claim := s.claims[k];
          claim.id in s.begun && claim.id !in s.rows && claim.checkedAt <= s.begun[claim.id].expiresAt
          && claim.cid in s.calls && s.calls[claim.cid].state == s.begun[claim.id].state)
    && (forall k, l :: 0 <= k < |s.claims| && 0 <= l < |s.claims| && s.claims[k].id == s.claims[l].id ==> k == l)
    && (forall c :: c in s.calls && (s.calls[c].phase.Storing? || s.calls[c].phase.Done?) ==> Claimed(s, c, s.calls[c].id))
  }

  ghost predicate WritesOk(s: State) {
    && (forall k :: 0 <= k < |s.writes| ==>
          var w := s.writes[k];
          w.cid in s.calls && s.calls[w.cid].phase.Done? && s.calls[w.cid].id == w.id
          && w.owner == s.calls[w.cid].row.owner && w.provider == s.calls[w.cid].row.provider)
    && (forall k, l :: 0 <= k < |s.writes| && 0 <= l < |s.writes| && s.writes[k].cid == s.writes[l].cid ==> k == l)
    && (forall c :: c in s.calls && s.calls[c].phase.Done? ==> Wrote(s, c))
  }

  ghost predicate Wrote(s: State, c: Cid) {
    exists k :: 0 <= k < |s.writes| && s.writes[k].cid == c
  }

  ghost predicate Inv(s: State) {
    RowsOk(s) && CallsOk(s) && ClaimsOk(s) && WritesOk(s)
  }

  lemma ClaimedStays(s: State, s': State)
    requires s.claims <= s'.claims && s.writes <= s'.writes
    ensures forall c, i :: Claimed(s, c, i) ==> Claimed(s', c, i)
    ensures forall c :: Wrote(s, c) ==> Wrote(s', c)
  {
    forall c | Wrote(s, c) ensures Wrote(s', c) {
      var k :| 0 <= k < |s.writes| && s.writes[k].cid == c;
      assert s'.writes[k] == s.writes[k];
    }
    forall c, i | Claimed(s, c, i) ensures Claimed(s', c, i) {
      var k :| 0 <= k < |s.claims| && s.claims[k].cid == c && s.claims[k].id == i;
      assert s'.claims[k] == s.claims[k];
    }
  }

  lemma BeginKeepsInv(s: State, act: Act)
    requires Inv(s) && act.Begin?
    ensures Inv(Step(s, act))
  {
    ClaimedStays(s, Step(s, act));
  }

  /** A step that moves one call and changes nothing but, perhaps, its row copy and check time. */
  lemma CallMoveKeepsInv(s: State, cid: Cid, c: Call)
    requires Inv(s) && !c.phase.Storing? && !c.phase.Done?
    requires cid in s.calls ==> !s.calls[cid].phase.Done? && c.state == s.calls[cid].state
    requires c.phase.Checking? || c.phase.Claiming? ==> c.id in s.begun && c.row == s.begun[c.id] && c.row.state == c.state
    requires c.phase.Claiming? ==> c.checkedAt <= c.row.expiresAt
    ensures Inv(SetCall(s, cid, c))
  {
    ClaimedStays(s, SetCall(s, cid, c));
  }

  lemma ClaimKeepsInv(s: State, cid: Cid)
    requires Inv(s) && cid in s.calls && s.calls[cid].phase.Claiming?
    ensures Inv(ClaimStep(s, cid))
  {
    var me, s' := s.calls[cid], ClaimStep(s, cid);
    if me.id in s.rows {
      ClaimedStays(s, s');
      assert s'.claims[|s.claims|] == Claim(cid, me.id, me.checkedAt);
    } else {
      CallMoveKeepsInv(s, cid, me.(phase := Failed));
    }
  }

  lemma StoreKeepsClaims(s: State, cid: Cid)
    requires Inv(s) && cid in s.calls && s.calls[cid].phase.Storing?
    ensures ClaimsOk(StoreStep(s, cid))
  {
    ClaimedStays(s, StoreStep(s, cid));
  }

  lemma StoreKeepsWrites(s: State, cid: Cid)
    requires Inv(s) && cid in s.calls && s.calls[cid].phase.Storing?
    ensures WritesOk(StoreStep(s, cid))
  {
    var s' := StoreStep(s, cid);
    ClaimedStays(s, s');
    assert s'.writes[|s.writes|].cid == cid;
  }

  lemma StoreKeepsInv(s: State, cid: Cid)
    requires Inv(s) && cid in s.calls && s.calls[cid].phase.Storing?
    ensures Inv(StoreStep(s, cid))
  {
    StoreKeepsClaims(s, cid);
    StoreKeepsWrites(s, cid);
  }

  lemma CompleteKeepsInv(s: State, act: Act)
    requires Inv(s) && act.Complete?
    ensures Inv(Step(s, act))
  {
    if act.cid !in s.calls { CallMoveKeepsInv(s, act.cid, Call(Reading, act.state, 0, NO_ROW, 0)); }
  }

  lemma ReadKeepsInv(s: State, act: Act)
    requires Inv(s) && act.Read?
    ensures Inv(Step(s, act))
  {
    if Step(s, act) != s { CallMoveKeepsInv(s, act.cid, Step(s, act).calls[act.cid]); }
  }

  lemma CheckKeepsInv(s: State, act: Act)
    requires Inv(s) && act.Check?
    ensures Inv(Step(s, act))
  {
    if Step(s, act) != s { CallMoveKeepsInv(s, act.cid, Step(s, act).calls[act.cid]); }
  }

  lemma DeleteKeepsInv(s: State, act: Act)
    requires Inv(s) && act.DeleteRow?
    ensures Inv(Step(s, act))
  {
    if act.cid in s.calls && s.calls[act.cid].phase.Claiming? { ClaimKeepsInv(s, act.cid); }
  }

  lemma StoreActKeepsInv(s: State, act: Act)
    requires Inv(s) && act.StoreToken?
    ensures Inv(Step(s, act))
  {
    if act.cid in s.calls && s.calls[act.cid].phase.Storing? { StoreKeepsInv(s, act.cid); }
  }

  lemma FailsKeepsInv(s: State, act: Act)
    requires Inv(s) && act.ExchangeFails?
    ensures Inv(Step(s, act))
  {
    if act.cid in s.calls && s.calls[act.cid].phase.Storing? {
      CallMoveKeepsInv(s, act.cid, s.calls[act.cid].(phase := Failed));
    }
  }

  lemma TickKeepsInv(s: State, act: Act)
    requires Inv(s) && act.Tick?
    ensures Inv(Step(s, act))
  {
    ClaimedStays(s, Step(s, act));
  }

  lemma StepKeepsInv(s: State, act: Act)
    requires Inv(s)
    ensures Inv(Step(s, act))
  {
    match act
    case Begin(_, _, _, _) => BeginKeepsInv(s, act);
    case Complete(_, _) => CompleteKeepsInv(s, act);
    case Read(_, _) => ReadKeepsInv(s, act);
    case Check(_) => CheckKeepsInv(s, act);
    case DeleteRow(_) => DeleteKeepsInv(s, act);
    case StoreToken(_) => StoreActKeepsInv(s, act);
    case ExchangeFails(_) => FailsKeepsInv(s, act);
    case Tick(_) => TickKeepsInv(s, act);
  }

  lemma {:induction false} ReachableInv(clock: int, acts: seq<Act>)
    ensures Inv(Exec(Init(clock), acts))
  {
    if acts != [] {
      ReachableInv(clock, acts[..|acts| - 1]);
      StepKeepsInv(Exec(Init(clock), acts[..|acts| - 1]), acts[|acts| - 1]);
    }
  }

  // ---- what the flow relies on ----

  /** Each state row is claimed by at most one call; that call presented the row's own state value and
      found it unexpired when it checked. */
  lemma OneClaimPerState(clock: int, acts: seq<Act>, k: nat, l: nat)
    requires k < |Exec(Init(clock), acts).claims| && l < |Exec(Init(clock), acts).claims|
    ensures var s := Exec(Init(clock), acts); var claim := s.claims[k];
            && (claim.id == s.claims[l].id ==> k == l)
            && claim.id in s.begun && claim.checkedAt <= s.begun[claim.id].expiresAt
            && claim.cid in s.calls && s.calls[claim.cid].state == s.begun[claim.id].state
  {
    ReachableInv(clock, acts);
  }

  /** Every token is written by the one call that claimed its row, at most one per row, and for the user
      and provider of the Begin that created the row. */
  lemma TokensGoToTheirOwner(clock: int, acts: seq<Act>, k: nat, l: nat)
    requires k < |Exec(Init(clock), acts).writes| && l < |Exec(Init(clock), acts).writes|
    ensures var s := Exec(Init(clock), acts); var w := s.writes[k];
            && w.id in s.begun && w.owner == s.begun[w.id].owner && w.provider == s.begun[w.id].provider
            && Claimed(s, w.cid, w.id)
            && (w.id == s.writes[l].id ==> k == l)
  {
    ReachableInv(clock, acts);
    var s := Exec(Init(clock), acts);
    var w, v := s.writes[k], s.writes[l];
    assert Claimed(s, w.cid, w.id) && Claimed(s, v.cid, v.id);
    if w.id == v.id {
      var i :| 0 <= i < |s.claims| && s.claims[i].cid == w.cid && s.claims[i].id == w.id;
      var j :| 0 <= j < |s.claims| && s.claims[j].cid == v.cid && s.claims[j].id == v.id;
      OneClaimPerState(clock, acts, i, j);
      assert w.cid == v.cid;
    }
  }

  /** Every call that has succeeded has written one token: for the user and provider that the Begin of its
      state value was for, and for the row it claimed. */
  lemma SuccessHasWritten(clock: int, acts: seq<Act>, c: Cid) returns (k: nat)
    requires c in Exec(Init(clock), acts).calls && Exec(Init(clock), acts).calls[c].phase.Done?
    ensures var s := Exec(Init(clock), acts);
            && k < |s.writes| && s.writes[k].cid == c && (forall l :: 0 <= l < |s.writes| && s.writes[l].cid == c ==> l == k)
            && s.writes[k].id in s.begun && s.begun[s.writes[k].id].state == s.calls[c].state
            && s.writes[k].owner == s.begun[s.writes[k].id].owner && s.writes[k].provider == s.begun[s.writes[k].id].provider
            && Claimed(s, c, s.writes[k].id)
  {
    ReachableInv(clock, acts);
    var s := Exec(Init(clock), acts);
    assert Wrote(s, c);
    k :| 0 <= k < |s.writes| && s.writes[k].cid == c;
    TokensGoToTheirOwner(clock, acts, k, k);
  }

  // ---- what single calls do ----

  /** Begin inserts one row: with the caller, the provider, a state value and an id of its own, and ten minutes
      to live. */
  lemma BeginInserts(s: State, newId: Id, state: string, owner: int, provider: string)
    ensures var s' := Step(s, Begin(newId, state, owner, provider));
            if newId in s.begun || exists i :: i in s.begun && s.begun[i].state == state then s' == s
            else s' == s.(rows := s.rows[newId := StateRow(state, owner, provider, s.clock + 600)],
                          begun := s.begun[newId := StateRow(state, owner, provider, s.clock + 600)])
  {}

  /** A call whose state value no row has fails; one that finds its row goes on with it. */
  lemma ReadFindsOrFails(s: State, cid: Cid, pick: Id)
    requires cid in s.calls && s.calls[cid].phase.Reading?
    ensures var s' := Step(s, Read(cid, pick));
            && s'.rows == s.rows && s'.writes == s.writes && s'.claims == s.claims
            && (s'.calls[cid].phase.Failed? <==> forall i :: i in s.rows ==> s.rows[i].state != s.calls[cid].state)
            && (s'.calls[cid].phase.Checking? <==> pick in s.rows && s.rows[pick].state == s.calls[cid].state)
            && (s'.calls[cid].phase.Checking? ==> s'.calls[cid].id == pick && s'.calls[cid].row == s.rows[pick])
  {}

  /** The check lets a row pass until its time is over, and the claim goes to the call that still finds it. */
  lemma CheckAndClaimDecide(s: State, cid: Cid)
    requires cid in s.calls
    ensures s.calls[cid].phase.Checking? ==>
              Step(s, Check(cid)).calls[cid].phase == if s.clock <= s.calls[cid].row.expiresAt then Claiming else Failed
    ensures s.calls[cid].phase.Claiming? ==>
              var s' := Step(s, DeleteRow(cid)); var id := s.calls[cid].id;
              && s'.calls[cid].phase == (if id in s.rows then Storing else Failed)
              && s'.rows == s.rows - {id} && s'.writes == s.writes
  {}

  /** The steps of a call that nothing comes between. */
  function Alone(s: State, cid: Cid, state: string, i: Id): State {
    Step(Step(Step(Step(Step(s, Complete(cid, state)), Read(cid, i)), Check(cid)), DeleteRow(cid)), StoreToken(cid))
  }

  /** A call that nothing comes between succeeds with an unexpired row of its state value: the row is used up,
      and one token is written for the user and provider of the row. */
  lemma UndisturbedCallWrites(s: State, cid: Cid, state: string, i: Id)
    requires cid !in s.calls && i in s.rows && s.rows[i].state == state && s.clock <= s.rows[i].expiresAt
    ensures var s' := Alone(s, cid, state, i);
            && cid in s'.calls && s'.calls[cid].phase.Done? && s'.rows == s.rows - {i}
            && s'.writes == s.writes + [Write(cid, i, s.rows[i].owner, s.rows[i].provider)]
            && s'.claims == s.claims + [Claim(cid, i, s.clock)]
  {}

  /** With an expired row it fails, and changes nothing. */
  lemma ExpiredCallFails(s: State, cid: Cid, state: string, i: Id)
    requires cid !in s.calls && i in s.rows && s.rows[i].state == state && s.clock > s.rows[i].expiresAt
    ensures var s' := Alone(s, cid, state, i);
            cid in s'.calls && s'.calls[cid].phase.Failed? && s'.rows == s.rows && s'.writes == s.writes && s'.claims == s.claims
  {}
}
