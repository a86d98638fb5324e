/** The audit pipeline as an interleaving: any number of producers, the bounded channel, the writer's
    select loop with its batch, the bounded retries of `persist`, cancellation and shutdown. A select
    with several ready cases may take any of them, so each case is a move of its own. */
module AuditPipeline {
  type Event = int

  const MAX_ATTEMPTS := 4

  /** The Log: its channel and its drop counter. */
  datatype Log = Log(capacity: int, buf: seq<Event>, closed: bool, dropped: nat)

  datatype Sent = Accepted | Dropped | Swallowed

  /** A send on a closed channel panics and is recovered; on a full one the event is counted and dropped. */
  function Send(log: Log, e: Event): (Log, Sent) {
    if log.closed then (log, Swallowed)
    else if |log.buf| < log.capacity then (log.(buf := log.buf + [e]), Accepted)
    else (log.(dropped := log.dropped + 1), Dropped)
  }

  /** How one call of `persist` ended, and after how many inserts. */
  datatype Outcome = Inserted(tries: int) | Logged(tries: int) | Abandoned(tries: int)

  datatype At =
    | Select     // the outer select
    | Draining   // the inner loop after cancellation
    | Inserting  // in persist, about to insert
    | Waiting    // in persist, between two attempts
    | Returned

  /** `final`: persist runs on the fresh context of drainFlush, and Run returns after it. */
  datatype State = State(
    log: Log,
    batchSize: int,
    cancelled: bool,
    at: At,
    batch: seq<Event>,
    final: bool,
    attempt: int,
    handed: seq<seq<Event>>,  // the batches given to persist, in order
    outcomes: seq<Outcome>,
    stored: seq<Event>,       // the audit rows
    accepted: seq<Event>,
    swallowed: nat,
    calls: nat)

  datatype Act =
    | Enqueue(e: Event)
    | Complete
    | Cancel
    | Receive
    | Tick
    | SeeCancel
    | DrainReceive
    | InsertOk
    | InsertFails(timedOut: bool)  // whether the drain context has expired, when that is the one in use
    | WaitOver
    | WaitCancelled

  predicate ByWriter(act: Act) {
    !act.Enqueue? && !act.Complete? && !act.Cancel?
  }

  /** NewLog clamps the capacity and NewWriter replaces a batch size below one. */
  function Init(capacity: int, batchSize: int): State {
    State(Log(if capacity < 1 then 1 else capacity, [], false, 0), if batchSize < 1 then 100 else batchSize,
          false, Select, [], false, 0, [], [], [], [], 0, 0)
  }

  function EnqueueStep(s: State, e: Event): State {
    var (log, sent) := Send(s.log, e);
    s.(log := log, calls := s.calls + 1,
       accepted := if sent == Accepted then s.accepted + [e] else s.accepted,
       swallowed := if sent == Swallowed then s.swallowed + 1 else s.swallowed)
  }

  /** flush and drainFlush: nothing to do for an empty batch, else hand it to persist. */
  function Flush(s: State, final: bool): State {
    if s.batch == [] then s.(at := if final then Returned else Select, final := final)
    else s.(at := Inserting, final := final, attempt := 1, handed := s.handed + [s.batch], batch := [])
  }

  function ReceiveStep(s: State): State {
    if !s.at.Select? then s
    else if s.log.buf != [] then
      var s1 := s.(log := s.log.(buf := s.log.buf[1..]), batch := s.batch + [s.log.buf[0]]);
      if |s1.batch| >= s.batchSize then Flush(s1, false) else s1
    else if s.log.closed then Flush(s, true)
    else s
  }

  function DrainStep(s: State): State {
    if !s.at.Draining? then s
    else if s.log.buf != [] then
      s.(log := s.log.(buf := s.log.buf[1..]), batch := s.batch + [s.log.buf[0]])
    else Flush(s, true)
  }

  function Finish(s: State, o: Outcome): State {
    s.(outcomes := s.outcomes + [o], attempt := 0, at := if s.final then Returned else Select)
  }

  /** What persist does after a failed insert. */
  predicate Retries(attempt: int, contextDone: bool) {
    attempt < MAX_ATTEMPTS && !contextDone
  }

  function Step(s: State, act: Act): State {
    match act
    case Enqueue(e) => EnqueueStep(s, e)
    case Complete => s.(log := s.log.(closed := true))
    case Cancel => s.(cancelled := true)
    case Receive => ReceiveStep(s)
    case Tick => if s.at.Select? then Flush(s, false) else s
    case SeeCancel => if s.at.Select? && s.cancelled then s.(at := Draining) else s
    case DrainReceive => DrainStep(s)
    case InsertOk =>
      if s.at.Inserting? && s.handed != [] then
        Finish(s.(stored := s.stored + s.handed[|s.handed| - 1]), Inserted(s.attempt))
      else s
    case InsertFails(timedOut) =>
      if !s.at.Inserting? then s
      else if Retries(s.attempt, if s.final then timedOut else s.cancelled) then s.(at := Waiting)
      else Finish(s, Logged(s.attempt))
    case WaitOver => if s.at.Waiting? then s.(at := Inserting, attempt := s.attempt + 1) else s
    case WaitCancelled => if s.at.Waiting? && (s.final || s.cancelled) then Finish(s, Abandoned(s.attempt)) else s
  }

  function Exec(s: State, acts: seq<Act>): State {
    if acts == [] then s else Step(Exec(s, acts[..|acts| - 1]), acts[|acts| - 1])
  }

  // ---- the invariant ----

  function Flatten(batches: seq<seq<Event>>): seq<Event> {
    if batches == [] then [] else Flatten(batches[..|batches| - 1]) + batches[|batches| - 1]
  }

  /** The events of the batches whose insert went through. */
  function InsertedEvents(batches: seq<seq<Event>>, outcomes: seq<Outcome>): seq<Event>
    requires |outcomes| <= |batches|
  {
    if outcomes == [] then []
    else
      var n := |outcomes| - 1;
      InsertedEvents(batches, outcomes[..n]) + (if outcomes[n].Inserted? then batches[n] else [])
  }

  predicate Persisting(s: State) { s.at.Inserting? || s.at.Waiting? }

  /** The writer has handed over its last batch, or has none. */
  predicate Ending(s: State) { s.at.Returned? || (Persisting(s) && s.final) }

  ghost predicate Channel(s: State) {
    && 1 <= s.log.capacity && |s.log.buf| <= s.log.capacity
    && |s.accepted| + s.log.dropped + s.swallowed == s.calls
  }

  ghost predicate Fifo(s: State) {
    Flatten(s.handed) + s.batch + s.log.buf == s.accepted
  }

  /** Full batches only; the one drained after a cancellation may be longer, and is the last. */
  ghost predicate Batches(s: State) {
    && 1 <= s.batchSize
    && (forall i :: 0 <= i < |s.handed| ==>
          1 <= |s.handed[i]| && (|s.handed[i]| <= s.batchSize || (i == |s.handed| - 1 && s.cancelled && Ending(s))))
    && (s.at.Select? ==> |s.batch| < s.batchSize)
    && (s.at.Draining? ==> s.cancelled)
    && (s.at.Select? || s.at.Draining? ==> !s.final)
    && (Persisting(s) || s.at.Returned? ==> s.batch == [])
  }

  predicate OutcomeOk(o: Outcome) {
    match o
    case Inserted(n) => 1 <= n <= MAX_ATTEMPTS
    case Logged(n) => 1 <= n <= MAX_ATTEMPTS
    case Abandoned(n) => 1 <= n < MAX_ATTEMPTS
  }

  /** Inserted, or given up and logged after all attempts. */
  predicate Undisturbed(o: Outcome) {
    o.Inserted? || o == Logged(MAX_ATTEMPTS)
  }

  ghost predicate Outcomes(s: State) {
    && |s.handed| == |s.outcomes| + (if Persisting(s) then 1 else 0)
    && (Persisting(s) ==> 1 <= s.attempt <= MAX_ATTEMPTS && (s.at.Waiting? ==> s.attempt < MAX_ATTEMPTS))
    && (forall i :: 0 <= i < |s.outcomes| ==> OutcomeOk(s.outcomes[i]))
    && (forall i :: 0 <= i < |s.outcomes| && !s.cancelled && !(s.at.Returned? && i == |s.outcomes| - 1) ==>
          Undisturbed(s.outcomes[i]))
    && s.stored == InsertedEvents(s.handed, s.outcomes)
  }

  ghost predicate Inv(s: State) {
    Channel(s) && Fifo(s) && Batches(s) && Outcomes(s)
  }

  lemma {:induction false} InsertedEventsPrefix(batches: seq<seq<Event>>, more: seq<seq<Event>>, outcomes: seq<Outcome>)
    requires |outcomes| <= |batches|
    ensures InsertedEvents(batches + more, outcomes) == InsertedEvents(batches, outcomes)
  {
    if outcomes != [] {
      InsertedEventsPrefix(batches, more, outcomes[..|outcomes| - 1]);
    }
  }

  lemma FlattenSnoc(batches: seq<seq<Event>>, last: seq<Event>)
    ensures Flatten(batches + [last]) == Flatten(batches) + last
  {
    assert (batches + [last])[..|batches|] == batches;
  }

  lemma FlushKeepsInv(s: State, final: bool)
    requires Channel(s) && Fifo(s) && Outcomes(s) && (s.at.Select? || s.at.Draining?)
    requires 1 <= s.batchSize && forall i :: 0 <= i < |s.handed| ==> 1 <= |s.handed[i]| <= s.batchSize
    requires |s.batch| <= s.batchSize || (final && s.cancelled)
    ensures Inv(Flush(s, final))
  {
    if s.batch != [] {
      FlattenSnoc(s.handed, s.batch);
      InsertedEventsPrefix(s.handed, [s.batch], s.outcomes);
    }
  }

  lemma ReceiveKeepsInv(s: State)
    requires Inv(s)
    ensures Inv(ReceiveStep(s))
  {
    if s.at.Select? && s.log.buf != [] {
      assert [s.log.buf[0]] + s.log.buf[1..] == s.log.buf;
      var s1 := s.(log := s.log.(buf := s.log.buf[1..]), batch := s.batch + [s.log.buf[0]]);
      assert Fifo(s1);
      if |s1.batch| >= s.batchSize { FlushKeepsInv(s1, false); }
    } else if s.at.Select? && s.log.closed {
      FlushKeepsInv(s, true);
    }
  }

  lemma DrainKeepsInv(s: State)
    requires Inv(s)
    ensures Inv(DrainStep(s))
  {
    if s.at.Draining? && s.log.buf != [] {
      assert [s.log.buf[0]] + s.log.buf[1..] == s.log.buf;
    } else if s.at.Draining? {
      FlushKeepsInv(s, true);
    }
  }

  lemma FinishKeepsInv(s: State, o: Outcome, rows: seq<Event>)
    requires Inv(s) && Persisting(s) && OutcomeOk(o) && (Undisturbed(o) || s.final || s.cancelled)
    requires rows == s.stored + if o.Inserted? then s.handed[|s.outcomes|] else []
    ensures Inv(Finish(s.(stored := rows), o))
  {
    assert (s.outcomes + [o])[..|s.outcomes|] == s.outcomes;
  }

  lemma EnqueueKeepsInv(s: State, e: Event)
    requires Inv(s)
    ensures Inv(EnqueueStep(s, e))
  {
    var s' := EnqueueStep(s, e);
    assert s'.accepted == s.accepted || s'.accepted == s.accepted + [e];
    assert Fifo(s');
  }

  lemma CancelKeepsInv(s: State)
    requires Inv(s)
    ensures Inv(s.(cancelled := true))
  {}

  lemma InsertKeepsInv(s: State, act: Act)
    requires Inv(s) && (act.InsertOk? || act.InsertFails?)
    ensures Inv(Step(s, act))
  {
    if s.at.Inserting? {
      if act.InsertOk? {
        FinishKeepsInv(s, Inserted(s.attempt), s.stored + s.handed[|s.handed| - 1]);
      } else if !Retries(s.attempt, if s.final then act.timedOut else s.cancelled) {
        FinishKeepsInv(s, Logged(s.attempt), s.stored);
      }
    }
  }

  lemma WaitKeepsInv(s: State, act: Act)
    requires Inv(s) && (act.WaitOver? || act.WaitCancelled?)
    ensures Inv(Step(s, act))
  {
    if s.at.Waiting? && act.WaitCancelled? && (s.final || s.cancelled) {
      FinishKeepsInv(s, Abandoned(s.attempt), s.stored);
    }
  }

  lemma StepKeepsInv(s: State, act: Act)
    requires Inv(s)
    ensures Inv(Step(s, act))
  {
    match act
    case Enqueue(e) => EnqueueKeepsInv(s, e);
    case Complete =>
    case Cancel => CancelKeepsInv(s);
    case Receive => ReceiveKeepsInv(s);
    case Tick => if s.at.Select? { FlushKeepsInv(s, false); }
    case SeeCancel =>
    case DrainReceive => DrainKeepsInv(s);
    case InsertOk => InsertKeepsInv(s, act);
    case InsertFails(_) => InsertKeepsInv(s, act);
    case WaitOver => WaitKeepsInv(s, act);
    case WaitCancelled => WaitKeepsInv(s, act);
  }

  lemma {:induction false} ExecKeepsInv(s: State, acts: seq<Act>)
    requires Inv(s)
    ensures Inv(Exec(s, acts))
  {
    if acts != [] {
      ExecKeepsInv(s, acts[..|acts| - 1]);
      StepKeepsInv(Exec(s, acts[..|acts| - 1]), acts[|acts| - 1]);
    }
  }

  lemma ReachableInv(capacity: int, batchSize: int, acts: seq<Act>)
    ensures Inv(Exec(Init(capacity, batchSize), acts))
  {
    ExecKeepsInv(Init(capacity, batchSize), acts);
  }

  lemma {:induction false} ExecAppend(s: State, a: seq<Act>, b: seq<Act>)
    ensures Exec(s, a + b) == Exec(Exec(s, a), b)
  {
    if b == [] {
      assert a + b == a;
    } else {
      assert (a + b)[..|a + b| - 1] == a + b[..|b| - 1];
      ExecAppend(s, a, b[..|b| - 1]);
    }
  }

  lemma ExecFirst(s: State, act: Act, rest: seq<Act>)
    ensures Exec(s, [act] + rest) == Exec(Step(s, act), rest)
  {
    ExecAppend(s, [act], rest);
    assert [act][..0] == [];
  }

  /** The i-th step of a trace is the step of the i-th act. */
  ghost predicate Took(trace: seq<State>, acts: seq<Act>, i: int) {
    0 <= i < |acts| && |trace| == |acts| + 1 && trace[i + 1] == Step(trace[i], acts[i])
  }

  ghost predicate IsTrace(trace: seq<State>, s: State, acts: seq<Act>, s': State) {
    && |trace| == |acts| + 1 && trace[0] == s && trace[|acts|] == s'
    && forall i :: 0 <= i < |acts| ==> Took(trace, acts, i)
  }

  /** `acts` lead from `s` to `s'`, state by state. */
  ghost predicate Leads(s: State, acts: seq<Act>, s': State) {
    exists trace :: IsTrace(trace, s, acts, s')
  }

  lemma LeadsNowhere(s: State)
    ensures Leads(s, [], s)
  {
    assert IsTrace([s], s, [], s);
  }

  lemma LeadsFurther(s: State, acts: seq<Act>, s': State, act: Act)
    requires Leads(s, acts, s')
    ensures Leads(s, acts + [act], Step(s', act))
  {
    var trace :| IsTrace(trace, s, acts, s');
    var longer := trace + [Step(s', act)];
    forall i | 0 <= i < |acts + [act]| ensures Took(longer, acts + [act], i) {
      if i < |acts| { assert Took(trace, acts, i); }
    }
    assert IsTrace(longer, s, acts + [act], Step(s', act));
  }

  /** Where acts lead is where they are executed to. */
  lemma {:induction false} LeadsToExec(s: State, acts: seq<Act>, s': State)
    requires Leads(s, acts, s')
    ensures s' == Exec(s, acts)
  {
    var trace :| IsTrace(trace, s, acts, s');
    if acts != [] {
      var n := |acts| - 1;
      var shorter, before := trace[..n + 1], acts[..n];
      forall i | 0 <= i < n ensures Took(shorter, before, i) {
        assert Took(trace, acts, i);
      }
      assert IsTrace(shorter, s, before, trace[n]);
      LeadsToExec(s, before, trace[n]);
      assert Took(trace, acts, n);
    }
  }

  // ---- what the vault relies on ----

  /** No accepted event is lost, doubled or reordered on its way: the batches handed to persist, then
      the current batch, then the channel are the accepted events, and every call is accounted for. */
  lemma FifoConservation(capacity: int, batchSize: int, acts: seq<Act>)
    ensures var s := Exec(Init(capacity, batchSize), acts);
            && Flatten(s.handed) + s.batch + s.log.buf == s.accepted
            && |s.accepted| + s.log.dropped + s.swallowed == s.calls
            && |s.log.buf| <= s.log.capacity
  {
    ReachableInv(capacity, batchSize, acts);
  }

  /** Before cancellation every batch handed to persist has between 1 and BatchSize events; afterwards
      only the very last one may be longer. */
  lemma BatchBounds(capacity: int, batchSize: int, acts: seq<Act>, i: nat)
    requires i < |Exec(Init(capacity, batchSize), acts).handed|
    ensures var s := Exec(Init(capacity, batchSize), acts);
            && 1 <= |s.handed[i]|
            && (!s.cancelled || i < |s.handed| - 1 ==> |s.handed[i]| <= s.batchSize)
  {
    ReachableInv(capacity, batchSize, acts);
  }

  /** Each handed batch has one outcome after at most four inserts, and the audit rows are the inserted
      batches, each once and in order. Without a cancellation only the last batch of a run that has
      returned can have been given up before its fourth insert. */
  lemma OneOutcomePerBatch(capacity: int, batchSize: int, acts: seq<Act>)
    ensures var s := Exec(Init(capacity, batchSize), acts);
            && |s.outcomes| <= |s.handed| <= |s.outcomes| + 1
            && (|s.handed| == |s.outcomes| <==> !Persisting(s))
            && (forall i :: 0 <= i < |s.outcomes| ==> 1 <= s.outcomes[i].tries <= MAX_ATTEMPTS)
            && (forall i :: 0 <= i < |s.outcomes| && !s.cancelled && !(s.at.Returned? && i == |s.outcomes| - 1) ==>
                  s.outcomes[i].Inserted? || s.outcomes[i] == Logged(MAX_ATTEMPTS))
            && s.stored == InsertedEvents(s.handed, s.outcomes)
  {
    ReachableInv(capacity, batchSize, acts);
    var s := Exec(Init(capacity, batchSize), acts);
    assert forall i :: 0 <= i < |s.outcomes| ==> OutcomeOk(s.outcomes[i]);
    assert forall i :: 0 <= i < |s.outcomes| && !s.cancelled && !(s.at.Returned? && i == |s.outcomes| - 1) ==>
             Undisturbed(s.outcomes[i]);
  }

  /** The order of main: the channel is completed before the workers are cancelled. */
  ghost predicate CompleteBeforeCancel(acts: seq<Act>) {
    forall i :: 0 <= i < |acts| && acts[i].Cancel? ==> Complete in acts[..i]
  }

  lemma {:induction false} CompletedStaysClosed(s: State, acts: seq<Act>)
    ensures Complete in acts || s.log.closed ==> Exec(s, acts).log.closed
  {
    if acts != [] {
      var n := |acts| - 1;
      CompletedStaysClosed(s, acts[..n]);
      assert acts == acts[..n] + [acts[n]];
      StepCloses(Exec(s, acts[..n]), acts[n]);
    }
  }

  lemma StepCloses(s: State, act: Act)
    ensures Step(s, act).log.closed <==> s.log.closed || act.Complete?
  {}

  ghost predicate InOrder(s: State) {
    (s.cancelled ==> s.log.closed) && (Ending(s) ==> s.log.closed && s.log.buf == [])
  }

  lemma StepKeepsInOrder(s: State, act: Act)
    requires Inv(s) && InOrder(s) && (act.Cancel? ==> s.log.closed)
    ensures InOrder(Step(s, act))
  {}

  lemma {:induction false} ShutdownInOrder(capacity: int, batchSize: int, acts: seq<Act>)
    requires CompleteBeforeCancel(acts)
    ensures InOrder(Exec(Init(capacity, batchSize), acts))
  {
    if acts != [] {
      var before := acts[..|acts| - 1];
      forall i | 0 <= i < |before| && before[i].Cancel? ensures Complete in before[..i] {
        assert before[..i] == acts[..i];
      }
      ShutdownInOrder(capacity, batchSize, before);
      CompletedStaysClosed(Init(capacity, batchSize), before);
      ReachableInv(capacity, batchSize, before);
      StepKeepsInOrder(Exec(Init(capacity, batchSize), before), acts[|acts| - 1]);
    }
  }

  ghost predicate AllHanded(s: State) {
    Flatten(s.handed) == s.accepted
  }

  /** Whatever happens from here on, all accepted events have been handed to persist. */
  ghost predicate StaysHanded(s: State) {
    forall more :: AllHanded(Exec(s, more))
  }

  /** A returned writer with a closed, empty channel has nothing left to lose. */
  ghost predicate AtRest(s: State) {
    s.at.Returned? && s.log.closed && s.log.buf == [] && s.batch == [] && AllHanded(s)
  }

  lemma {:induction false} RestLasts(s: State, more: seq<Act>)
    requires AtRest(s)
    ensures AtRest(Exec(s, more))
  {
    if more != [] {
      RestLasts(s, more[..|more| - 1]);
    }
  }

  /** When Run has returned, every event accepted before or later has been handed to persist, in every
      continuation, if and only if the channel is closed and empty by then. */
  lemma NothingStrandsIff(s: State)
    requires Inv(s) && s.at.Returned?
    ensures StaysHanded(s) <==> s.log.closed && s.log.buf == []
  {
    if s.log.closed && s.log.buf == [] {
      forall more ensures AllHanded(Exec(s, more)) { RestLasts(s, more); }
    } else if s.log.buf != [] {
      assert |s.accepted| == |Flatten(s.handed)| + |s.log.buf|;
      assert Exec(s, []) == s;
    } else {
      ExecOne(s, Enqueue(0));
      assert |Exec(s, [Enqueue(0)]).accepted| == |Flatten(s.handed)| + 1;
    }
  }

  lemma ExecOne(s: State, act: Act)
    ensures Exec(s, [act]) == Step(s, act)
  {
    assert [act][..0] == [];
  }

  /** Graceful shutdown: when Run returns in a run that completes the channel before it cancels, every
      accepted event has been handed to persist, each once and in order, whatever select cases were
      taken; and nothing can be accepted later and left behind. */
  lemma GracefulShutdown(capacity: int, batchSize: int, acts: seq<Act>)
    requires CompleteBeforeCancel(acts) && Exec(Init(capacity, batchSize), acts).at.Returned?
    ensures var s := Exec(Init(capacity, batchSize), acts);
            Flatten(s.handed) == s.accepted && |s.outcomes| == |s.handed| && s.log.closed && s.log.buf == [] && StaysHanded(s)
  {
    ShutdownInOrder(capacity, batchSize, acts);
    ReachableInv(capacity, batchSize, acts);
    NothingStrandsIff(Exec(Init(capacity, batchSize), acts));
  }

  /** In the other order Run can return with the channel open, and an event accepted later stays there:
      for every capacity and batch size such a run exists. */
  lemma CancelFirstCanStrand(capacity: int, batchSize: int) returns (acts: seq<Act>)
    ensures var s := Exec(Init(capacity, batchSize), acts); s.at.Returned? && !StaysHanded(s)
  {
    var s0 := Init(capacity, batchSize);
    acts := [Cancel, SeeCancel, DrainReceive];
    ExecOne(s0, Cancel);
    ExecAppend(s0, [Cancel], [SeeCancel]);
    ExecOne(Step(s0, Cancel), SeeCancel);
    assert [Cancel] + [SeeCancel] == acts[..2];
    assert !Exec(s0, acts).log.closed && Exec(s0, acts).at.Returned?;
    ReachableInv(capacity, batchSize, acts);
    NothingStrandsIff(Exec(s0, acts));
  }

  // ---- what can be missing from the audit rows ----

  /** The events of the batches whose insert did not go through. */
  function LostEvents(batches: seq<seq<Event>>, outcomes: seq<Outcome>): seq<Event>
    requires |outcomes| <= |batches|
  {
    if outcomes == [] then []
    else
      var n := |outcomes| - 1;
      LostEvents(batches, outcomes[..n]) + (if outcomes[n].Inserted? then [] else batches[n])
  }

  lemma {:induction false} InsertedOrLost(batches: seq<seq<Event>>, outcomes: seq<Outcome>)
    requires |outcomes| <= |batches|
    ensures multiset(Flatten(batches[..|outcomes|])) ==
            multiset(InsertedEvents(batches, outcomes)) + multiset(LostEvents(batches, outcomes))
  {
    if outcomes != [] {
      var n := |outcomes| - 1;
      InsertedOrLost(batches, outcomes[..n]);
      assert batches[..n + 1] == batches[..n] + [batches[n]];
      FlattenSnoc(batches[..n], batches[n]);
    }
  }

  /** After a graceful shutdown the accepted events are the audit rows and the events of the batches that
      were logged or abandoned, each event once. */
  lemma AcceptedIsStoredOrLost(capacity: int, batchSize: int, acts: seq<Act>)
    requires CompleteBeforeCancel(acts) && Exec(Init(capacity, batchSize), acts).at.Returned?
    ensures var s := Exec(Init(capacity, batchSize), acts);
            |s.outcomes| == |s.handed| && multiset(s.accepted) == multiset(s.stored) + multiset(LostEvents(s.handed, s.outcomes))
  {
    var s := Exec(Init(capacity, batchSize), acts);
    GracefulShutdown(capacity, batchSize, acts);
    ReachableInv(capacity, batchSize, acts);
    InsertedOrLost(s.handed, s.outcomes);
    assert s.handed[..|s.outcomes|] == s.handed;
  }

  predicate OneTry(o: Outcome) {
    o == Inserted(1) || o == Logged(1)
  }

  /** Since the cancellation, when `base` batches had been handed over, a batch on the run context has had
      one insert at most. */
  ghost predicate OneTrySince(s: State, base: int) {
    && s.cancelled && 0 <= base <= |s.handed|
    && (Persisting(s) && !s.final && |s.handed| > base ==> s.at.Inserting? && s.attempt == 1)
    && (forall i :: base <= i < |s.outcomes| && !(Ending(s) && i == |s.handed| - 1) ==> OneTry(s.outcomes[i]))
  }

  lemma StepKeepsOneTry(s: State, act: Act, base: int)
    requires Inv(s) && OneTrySince(s, base)
    ensures OneTrySince(Step(s, act), base)
  {}

  lemma {:induction false} ExecKeepsOneTry(s: State, acts: seq<Act>, base: int)
    requires Inv(s) && OneTrySince(s, base)
    ensures OneTrySince(Exec(s, acts), base)
  {
    if acts != [] {
      ExecKeepsOneTry(s, acts[..|acts| - 1], base);
      ExecKeepsInv(s, acts[..|acts| - 1]);
      StepKeepsOneTry(Exec(s, acts[..|acts| - 1]), acts[|acts| - 1], base);
    }
  }

  lemma StepKeepsOutcomes(s: State, act: Act)
    ensures s.outcomes <= Step(s, act).outcomes
  {}

  lemma {:induction false} OutcomesStay(s: State, acts: seq<Act>)
    ensures s.outcomes <= Exec(s, acts).outcomes
  {
    if acts != [] {
      OutcomesStay(s, acts[..|acts| - 1]);
      StepKeepsOutcomes(Exec(s, acts[..|acts| - 1]), acts[|acts| - 1]);
    }
  }

  lemma {:induction false} NotCancelled(s: State, acts: seq<Act>)
    requires !s.cancelled && Cancel !in acts
    ensures !Exec(s, acts).cancelled
  {
    if acts != [] {
      NotCancelled(s, acts[..|acts| - 1]);
    }
  }

  /** How each batch of a run ends, by when the run was cancelled: a batch settled before is inserted, or
      logged after four inserts; a batch handed over afterwards has one insert, and is logged if that fails,
      unless it is the last one, which drains on a context of its own. */
  lemma BatchFates(capacity: int, batchSize: int, before: seq<Act>, after: seq<Act>, i: nat)
    requires Cancel !in before
    requires i < |Exec(Init(capacity, batchSize), before + [Cancel] + after).outcomes|
    ensures var a, s := Exec(Init(capacity, batchSize), before), Exec(Init(capacity, batchSize), before + [Cancel] + after);
            && (i < |a.outcomes| && !(a.at.Returned? && i == |a.outcomes| - 1) ==> Undisturbed(s.outcomes[i]))
            && (|a.handed| <= i && !(Ending(s) && i == |s.handed| - 1) ==> OneTry(s.outcomes[i]))
  {
    var s0 := Init(capacity, batchSize);
    var a := Exec(s0, before);
    ReachableInv(capacity, batchSize, before);
    NotCancelled(s0, before);
    ExecAppend(s0, before + [Cancel], after);
    ExecAppend(s0, before, [Cancel]);
    ExecOne(a, Cancel);
    StepKeepsInv(a, Cancel);
    OutcomesStay(Step(a, Cancel), after);
    ExecKeepsOneTry(Step(a, Cancel), after, |a.handed|);
  }

  // ---- the wait for the writer ends ----

  /** An upper bound for the effective steps the writer still takes once the channel is closed. */
  function Work(s: State): int {
    var pending := 20 * |s.log.buf| + (if s.batch != [] then 10 else 0);
    match s.at
    case Select => pending + 5
    case Draining => pending + 4
    case Inserting => 9 - 2 * s.attempt + (if s.final then 0 else pending + 5)
    case Waiting => 8 - 2 * s.attempt + (if s.final then 0 else pending + 5)
    case Returned => 0
  }

  /** Once the channel is closed, a step of the writer either changes nothing (as an idle tick does) or
      brings the end of Run closer. */
  lemma WriterWorksOff(s: State, act: Act)
    requires Inv(s) && s.log.closed && ByWriter(act)
    ensures 0 <= Work(s) && (Step(s, act) == s || Work(Step(s, act)) < Work(s))
  {}

  /** And until Run returns there is such a step, with or without a cancellation. */
  lemma WriterCanGoOn(s: State) returns (act: Act)
    requires Inv(s) && s.log.closed && !s.at.Returned?
    ensures ByWriter(act) && 0 <= Work(Step(s, act)) < Work(s)
  {
    act := match s.at
           case Select => Receive
           case Draining => DrainReceive
           case Inserting => InsertOk
           case Waiting => WaitOver
           case Returned => Tick;
  }
}
