/** `Log` and `Writer` as the code runs them, proved to be runs of AuditPipeline.

    What is outside the code - arriving events, the completion of the channel, the cancellation, the
    ready case a select takes, the results of inserts - is handed in turn by turn. Each turn holds what
    happens before one select; during `persist` the channel is not read, so an arrival in that time is
    the same as one before the next select. A cancellation can also come during an insert or the wait
    after it. */
module AuditWriter {
  import opened Basics
  import P = AuditPipeline

  type Event = P.Event

  class Log {
    const capacity: int
    var buf: seq<Event>
    var closed: bool
    var dropped: nat

    constructor (capacity: int)
      ensures View() == P.Init(capacity, 1).log
      ensures this.capacity == (if capacity < 1 then 1 else capacity) && buf == [] && !closed && dropped == 0
    {
      this.capacity := if capacity < 1 then 1 else capacity;
      buf, closed, dropped := [], false, 0;
    }

    function View(): P.Log
      reads this
    {
      P.Log(capacity, buf, closed, dropped)
    }

    method Enqueue(e: Event)
      modifies this
      ensures View() == P.Send(old(View()), e).0
      ensures buf == old(buf) + [e] <==> !old(closed) && |old(buf)| < capacity
      ensures dropped == old(dropped) + 1 <==> !old(closed) && |old(buf)| >= capacity
      ensures (buf == old(buf) || buf == old(buf) + [e]) && (dropped == old(dropped) || dropped == old(dropped) + 1) && closed == old(closed)
    {
      if closed {
        return;  // the send panics, and the panic is recovered
      }
      if |buf| < capacity {
        buf := buf + [e];
      } else {
        dropped := dropped + 1;
      }
    }

    method Complete()
      modifies this
      ensures View() == old(View()).(closed := true)
      ensures closed && buf == old(buf) && dropped == old(dropped)
    {
      closed := true;
    }

    method Take() returns (e: Event)
      requires buf != []
      modifies this
      ensures View() == old(View()).(buf := old(buf)[1..]) && e == old(buf)[0]
    {
      e := buf[0];
      buf := buf[1..];
    }
  }

  /** One attempt of persist: whether the insert went through, and if not, whether the context was done
      when that was noticed and whether it was done during the wait. */
  datatype Try = Try(inserted: bool, contextDone: bool, waitCancelled: bool) {
    predicate LeadsOn() { !inserted && !contextDone && !waitCancelled }
  }

  /** The outcome is the one the attempts lead to: all before the last failed with the context alive
      through their wait, and the last one settled it. */
  ghost predicate Settles(tries: int -> Try, o: P.Outcome) {
    && 1 <= o.tries <= P.MAX_ATTEMPTS
    && (forall i :: 1 <= i < o.tries ==> tries(i).LeadsOn())
    && match o
       case Inserted(n) => tries(n).inserted
       case Logged(n) => !tries(n).inserted && (n == P.MAX_ATTEMPTS || tries(n).contextDone)
       case Abandoned(n) => !tries(n).inserted && n < P.MAX_ATTEMPTS && !tries(n).contextDone && tries(n).waitCancelled
  }

  /** The attempts always lead to an outcome. */
  lemma SomeSettlement(tries: int -> Try)
    ensures exists o :: Settles(tries, o)
  {
    if tries(1).LeadsOn() && tries(2).LeadsOn() && tries(3).LeadsOn() {
      assert Settles(tries, LastAttempt(tries(4), 4));
    } else if tries(1).LeadsOn() && tries(2).LeadsOn() {
      assert Settles(tries, LastAttempt(tries(3), 3));
    } else if tries(1).LeadsOn() {
      assert Settles(tries, LastAttempt(tries(2), 2));
    } else {
      assert Settles(tries, LastAttempt(tries(1), 1));
    }
  }

  function LastAttempt(t: Try, n: int): P.Outcome {
    if t.inserted then P.Inserted(n) else if P.Retries(n, t.contextDone) then P.Abandoned(n) else P.Logged(n)
  }

  ghost function Settlement(tries: int -> Try): (o: P.Outcome)
    ensures Settles(tries, o) && forall p :: Settles(tries, p) ==> p == o
  {
    SomeSettlement(tries);
    var o :| Settles(tries, o);
    o
  }

  /** Once its context is done every attempt finds it done. */
  ghost predicate Fits(tries: int -> Try, done: bool) {
    done ==> forall i :: tries(i).contextDone
  }

  /** A persist on Run's context that ends with `o` shows whether the cancellation came meanwhile. */
  predicate CancelledIn(tries: int -> Try, o: P.Outcome) {
    o.Abandoned? || (o.Logged? && tries(o.tries).contextDone)
  }

  predicate InPersist(s: P.State) {
    s.at.Inserting? && 1 <= s.attempt <= P.MAX_ATTEMPTS && s.handed != []
  }

  /** The batch handed over last is stored. */
  function Stored(s: P.State): P.State
    requires s.handed != []
  {
    s.(stored := s.stored + s.handed[|s.handed| - 1])
  }

  datatype Pick = PickReceive | PickTick | PickDone

  /** A persist that is not the final one runs on the context of Run, which may be cancelled already. */
  function OnRunContext(tries: int -> Try, cancelled: bool): int -> Try {
    i => tries(i).(contextDone := cancelled || tries(i).contextDone)
  }

  /** What happens before one select, the case it takes if that case is ready, and the attempts of the
      persist that may follow. */
  datatype Turn = Turn(arrivals: seq<Event>, complete: bool, cancel: bool, pick: Pick, tries: int -> Try)

  // ---- what the writer does to the pipeline ----

  /** The pipeline when the batch just handed over, if there is one, has been dealt with. */
  ghost function Persisted(s: P.State, tries: int -> Try): P.State {
    if !s.at.Inserting? || s.handed == [] then s
    else
      var seen := if s.final then tries else OnRunContext(tries, s.cancelled);
      var o := Settlement(seen);
      var s' := if o.Inserted? then Stored(s) else s;
      P.Finish(s'.(cancelled := s.cancelled || (!s.final && CancelledIn(seen, o))), o)
  }

  function Arrived(s: P.State, events: seq<Event>): (s': P.State)
    ensures s'.at == s.at
  {
    if events == [] then s else P.EnqueueStep(Arrived(s, events[..|events| - 1]), events[|events| - 1])
  }

  /** The events that an open channel with this much room takes, none if it is closed. */
  function Fitting(closed: bool, room: int, events: seq<Event>): seq<Event> {
    if closed || room <= 0 then [] else events[..Min(room, |events|)]
  }

  lemma FittingOneMore(closed: bool, room: int, events: seq<Event>, i: nat)
    requires i < |events|
    ensures Fitting(closed, room, events[..i + 1]) ==
            Fitting(closed, room, events[..i]) + (if !closed && |Fitting(closed, room, events[..i])| < room then [events[i]] else [])
  {
    if !closed && i < room { assert events[..i + 1] == events[..i] + [events[i]]; }
  }

  lemma ArrivedOneMore(s: P.State, events: seq<Event>, i: nat)
    requires i < |events|
    ensures Arrived(s, events[..i + 1]) == P.EnqueueStep(Arrived(s, events[..i]), events[i])
  {
    assert events[..i + 1][..i] == events[..i];
  }

  /** What happens before a select. */
  function Surrounded(s: P.State, turn: Turn): (s': P.State)
    ensures s'.at == s.at
  {
    var s1 := Arrived(s, turn.arrivals);
    var s2 := if turn.complete then P.Step(s1, P.Complete) else s1;
    if turn.cancel then P.Step(s2, P.Cancel) else s2
  }

  /** The inner loop: events are taken until none is queued, and the rest is handed over. */
  ghost function Drained(s: P.State, turns: seq<Turn>, tries: int -> Try): P.State
    requires s.at.Draining?
    decreases |turns|, |s.log.buf|
  {
    var s1 := if turns == [] then s else Surrounded(s, turns[0]);
    if s1.log.buf == [] then Persisted(P.DrainStep(s1), tries)
    else Drained(P.DrainStep(s1), if turns == [] then [] else turns[1..], tries)
  }

  lemma DrainedFrom(s: P.State, turns: seq<Turn>, i: nat, tries: int -> Try)
    requires s.at.Draining? && i <= |turns|
    ensures var s1 := if i < |turns| then Surrounded(s, turns[i]) else s;
            Drained(s, turns[i..], tries)
            == if s1.log.buf == [] then Persisted(P.DrainStep(s1), tries)
               else Drained(P.DrainStep(s1), turns[if i < |turns| then i + 1 else i..], tries)
  {
    if i < |turns| { assert turns[i..][1..] == turns[i + 1..]; }
  }

  lemma RanFrom(s: P.State, turns: seq<Turn>, i: nat)
    requires s.at.Select? && i < |turns|
    ensures Ran(s, turns[i..]) == Ran(TurnTaken(s, turns[i], turns[i + 1..]), turns[i + 1..])
  {
    assert turns[i..][1..] == turns[i + 1..];
  }

  ghost function TurnTaken(s: P.State, turn: Turn, later: seq<Turn>): P.State
    requires s.at.Select?
  {
    var s1 := Surrounded(s, turn);
    match turn.pick
    case PickReceive => Persisted(P.ReceiveStep(s1), turn.tries)
    case PickTick => Persisted(P.Flush(s1, false), turn.tries)
    case PickDone => if s1.cancelled then Drained(P.Step(s1, P.SeeCancel), later, turn.tries) else s1
  }

  /** Run over these turns. */
  ghost function Ran(s: P.State, turns: seq<Turn>): P.State
    decreases |turns|
  {
    if turns == [] || !s.at.Select? then s else Ran(TurnTaken(s, turns[0], turns[1..]), turns[1..])
  }

  class Writer {
    const log: Log
    const batchSize: int
    var batch: seq<Event>
    var rows: seq<Event>
    var cancelled: bool

    ghost const start: P.State
    ghost var model: P.State
    ghost var acts: seq<P.Act>

    constructor (log: Log, batchSize: int)
      requires log.View() == P.Init(log.capacity, batchSize).log
      ensures this.log == log && Coupled() && model.at.Select? && batch == []
      ensures start == P.Init(log.capacity, batchSize)
      ensures this.batchSize == (if batchSize < 1 then 100 else batchSize) && rows == [] && !cancelled
    {
      this.log := log;
      this.batchSize := if batchSize < 1 then 100 else batchSize;
      batch, rows, cancelled := [], [], false;
      start := P.Init(log.capacity, batchSize);
      model := P.Init(log.capacity, batchSize);
      acts := [];
      P.LeadsNowhere(P.Init(log.capacity, batchSize));
    }

    /** The fields agree with the state of the pipeline, and that state was reached by its steps. */
    ghost predicate Traced()
      reads this, log
    {
      && start == P.Init(log.capacity, batchSize) && P.Leads(start, acts, model)
      && model.log == log.View() && model.batchSize == batchSize && model.stored == rows && model.cancelled == cancelled
    }

    ghost predicate Coupled()
      reads this, log
    {
      Traced() && model.batch == batch
    }

    ghost method Did(act: P.Act)
      requires P.Leads(start, acts, model)
      modifies this`model, this`acts
      ensures model == P.Step(old(model), act) && P.Leads(start, acts, model)
      ensures acts == old(acts) + [act]
    {
      P.LeadsFurther(start, acts, model, act);
      acts := acts + [act];
      model := P.Step(model, act);
    }

    ghost method DidInsert()
      requires P.Leads(start, acts, model) && InPersist(model)
      modifies this`model, this`acts
      ensures model == P.Finish(Stored(old(model)), P.Inserted(old(model).attempt))
      ensures P.Leads(start, acts, model) && old(acts) <= acts
    {
      Did(P.InsertOk);
    }

    /** A failed insert with the wait after it, if there is one; `cancel` says that Run is cancelled during
        the insert or the wait. */
    ghost method DidFail(t: Try, cancel: bool)
      requires P.Leads(start, acts, model) && InPersist(model)
      requires !model.final ==> t.contextDone == (model.cancelled || (cancel && !t.waitCancelled))
      requires !model.final && !t.contextDone && t.waitCancelled ==> cancel
      modifies this`model, this`acts
      ensures var n := old(model).attempt;
              var s := old(model).(cancelled := old(model).cancelled || cancel);
              model == (if !P.Retries(n, t.contextDone) then P.Finish(s, P.Logged(n))
                        else if t.waitCancelled then P.Finish(s, P.Abandoned(n))
                        else s.(attempt := n + 1))
      ensures P.Leads(start, acts, model) && old(acts) <= acts
    {
      if cancel && !t.waitCancelled { Did(P.Cancel); }
      Did(P.InsertFails(t.contextDone));
      if cancel && t.waitCancelled { Did(P.Cancel); }
      if P.Retries(model.attempt, t.contextDone) {
        Did(if t.waitCancelled then P.WaitCancelled else P.WaitOver);
      }
    }

    /** Insert the batch, at most four times; then it is stored, logged or abandoned. A `final` persist
        has a context of its own, any other one that of Run, which can be cancelled meanwhile. */
    method Persist(final: bool, tries: int -> Try) returns (o: P.Outcome)
      requires Traced() && InPersist(model) && model.attempt == 1 && batch == model.handed[|model.handed| - 1]
      requires final == model.final && Fits(tries, !final && cancelled)
      modifies this`rows, this`cancelled, this`model, this`acts
      ensures Settles(tries, o)
      ensures rows == old(rows) + (if o.Inserted? then batch else [])
      ensures cancelled == (old(cancelled) || (!final && CancelledIn(tries, o)))
      ensures Traced() && model == P.Finish(old(model).(stored := rows, cancelled := cancelled), o) && old(acts) <= acts
    {
      var attempt := 1;
      while true
        invariant 1 <= attempt <= P.MAX_ATTEMPTS
        invariant forall i :: 1 <= i < attempt ==> tries(i).LeadsOn()
        invariant rows == old(rows) && cancelled == old(cancelled) && old(acts) <= acts
        invariant Traced() && model == old(model).(attempt := attempt)
        decreases P.MAX_ATTEMPTS - attempt
      {
        var t := tries(attempt);
        if t.inserted {
          rows := rows + batch;
          DidInsert();
          return P.Inserted(attempt);
        }
        if attempt < P.MAX_ATTEMPTS && !t.contextDone {
          if t.waitCancelled {
            cancelled := cancelled || !final;
            DidFail(t, !final);
            return P.Abandoned(attempt);
          }
          DidFail(t, false);
          attempt := attempt + 1;
        } else {
          cancelled := cancelled || (!final && t.contextDone);
          DidFail(t.(waitCancelled := false), !final && t.contextDone);
          return P.Logged(attempt);
        }
      }
    }

    /** The events that arrive, the completion and the cancellation before one select. */
    method Environment(turn: Turn)
      requires Coupled()
      modifies this`cancelled, this`model, this`acts, log
      ensures Coupled() && model == Surrounded(old(model), turn) && old(acts) <= acts
      ensures log.closed == (old(log.closed) || turn.complete) && cancelled == (old(cancelled) || turn.cancel)
      ensures log.buf == old(log.buf) + Fitting(old(log.closed), log.capacity - |old(log.buf)|, turn.arrivals)
      ensures batch == old(batch) && rows == old(rows)
    {
      Arrivals(turn.arrivals);
      if turn.complete {
        log.Complete();
        Did(P.Complete);
      }
      if turn.cancel {
        cancelled := true;
        Did(P.Cancel);
      }
    }

    method Arrive(e: Event)
      requires Coupled()
      modifies this`model, this`acts, log
      ensures Coupled() && model == P.EnqueueStep(old(model), e) && old(acts) <= acts && log.closed == old(log.closed)
      ensures log.buf == old(log.buf) + (if !old(log.closed) && |old(log.buf)| < log.capacity then [e] else [])
    {
      log.Enqueue(e);
      Did(P.Enqueue(e));
    }

    method Arrivals(events: seq<Event>)
      requires Coupled()
      modifies this`model, this`acts, log
      ensures Coupled() && model == Arrived(old(model), events) && old(acts) <= acts
      ensures log.closed == old(log.closed)
      ensures log.buf == old(log.buf) + Fitting(old(log.closed), log.capacity - |old(log.buf)|, events)
    {
      var i := 0;
      while i < |events|
        invariant 0 <= i <= |events|
        invariant Coupled() && model == Arrived(old(model), events[..i]) && old(acts) <= acts
        invariant log.closed == old(log.closed)
        invariant log.buf == old(log.buf) + Fitting(old(log.closed), log.capacity - |old(log.buf)|, events[..i])
      {
        ArrivedOneMore(old(model), events, i);
        FittingOneMore(old(log.closed), log.capacity - |old(log.buf)|, events, i);
        Arrive(events[i]);
        i := i + 1;
      }
      assert events[..i] == events;
    }

    /** flush, and with `final` drainFlush followed by the return of Run. The pipeline has handed the
        batch over in its step from `before`. */
    method Flush(final: bool, tries: int -> Try, ghost before: P.State)
      requires start == P.Init(log.capacity, batchSize) && P.Leads(start, acts, model) && model == P.Flush(before, final)
      requires before.batch == batch && (before.at.Select? || before.at.Draining?)
      requires model.log == log.View() && model.batchSize == batchSize && model.stored == rows && model.cancelled == cancelled
      modifies this`batch, this`rows, this`cancelled, this`model, this`acts
      ensures Coupled() && batch == [] && model == Persisted(old(model), tries) && old(acts) <= acts
      ensures |model.outcomes| == |old(model.outcomes)| + (if old(batch) == [] then 0 else 1) && model.handed == old(model.handed)
      ensures rows == old(rows) + (if old(batch) != [] && model.outcomes[|old(model.outcomes)|].Inserted? then old(batch) else [])
      ensures model.at == if final then P.Returned else P.Select
    {
      if batch != [] {
        var _ := Persist(final, if final then tries else OnRunContext(tries, cancelled));
        batch := [];
      }
    }

    /** The receive case of the outer select; nothing happens while it is not ready. */
    method Receive(tries: int -> Try) returns (done: bool)
      requires Coupled() && model.at.Select?
      modifies this`batch, this`rows, this`cancelled, this`model, this`acts, log
      ensures Coupled() && model == Persisted(P.ReceiveStep(old(model)), tries) && old(acts) <= acts
      ensures model.at == (if done then P.Returned else P.Select) && (done ==> log.buf == [])
      ensures if old(log.buf) != [] then
                var got := old(batch) + [old(log.buf)[0]];
                && !done && log.buf == old(log.buf)[1..]
                && (if |got| >= batchSize then batch == [] && model.handed == old(model.handed) + [got]
                    else batch == got && model.handed == old(model.handed) && rows == old(rows))
              else
                && done == log.closed && log.buf == [] && batch == (if done then [] else old(batch))
                && model.handed == old(model.handed) + (if done && old(batch) != [] then [old(batch)] else [])
    {
      ghost var s := model;
      if log.buf != [] {
        var e := log.Take();
        batch := batch + [e];
        Did(P.Receive);
        if |batch| >= batchSize {
          Flush(false, tries, s.(log := log.View(), batch := batch));
        }
        return false;
      }
      Did(P.Receive);
      if log.closed {
        Flush(true, tries, s);
      }
      return log.closed;
    }

    method Tick(tries: int -> Try)
      requires Coupled() && model.at.Select?
      modifies this`batch, this`rows, this`cancelled, this`model, this`acts
      ensures Coupled() && model == Persisted(P.Flush(old(model), false), tries) && old(acts) <= acts
      ensures model.at.Select?
      ensures batch == [] && model.handed == old(model.handed) + (if old(batch) != [] then [old(batch)] else [])
    {
      ghost var s := model;
      Did(P.Tick);
      Flush(false, tries, s);
    }

    /** The inner loop after cancellation: take what is queued without blocking, then flush and return. */
    method Drain(turns: seq<Turn>, tries: int -> Try)
      requires Coupled() && model.at.Draining?
      modifies this`batch, this`rows, this`cancelled, this`model, this`acts, log
      ensures Coupled() && model == Drained(old(model), turns, tries) && old(acts) <= acts
      ensures model.at.Returned? && log.buf == [] && batch == []
    {
      var i := 0;
      var done := false;
      while !done
        invariant 0 <= i <= |turns| && Coupled() && old(acts) <= acts
        invariant if done then model == Drained(old(model), turns, tries) && model.at.Returned? && log.buf == [] && batch == []
                  else model.at.Draining? && Drained(model, turns[i..], tries) == Drained(old(model), turns, tries)
        decreases !done, |turns| - i, |log.buf|
      {
        done, i := DrainRound(turns, i, tries);
      }
    }

    /** One round of the inner loop, with what happens before it. */
    method DrainRound(turns: seq<Turn>, i: nat, tries: int -> Try) returns (done: bool, next: nat)
      requires Coupled() && model.at.Draining? && i <= |turns|
      modifies this`batch, this`rows, this`cancelled, this`model, this`acts, log
      ensures Coupled() && old(acts) <= acts && next == Min(i + 1, |turns|)
      ensures if done then model == Drained(old(model), turns[i..], tries) && model.at.Returned? && log.buf == [] && batch == []
              else model.at.Draining? && Drained(model, turns[next..], tries) == Drained(old(model), turns[i..], tries)
      ensures done || next > i || |log.buf| < |old(log.buf)|
    {
      DrainedFrom(model, turns, i, tries);
      next := Min(i + 1, |turns|);
      if i < |turns| {
        Environment(turns[i]);
      }
      done := DrainOnce(tries);
    }

    /** The inner select: one more event, or the final flush when none is queued. */
    method DrainOnce(tries: int -> Try) returns (done: bool)
      requires Coupled() && model.at.Draining?
      modifies this`batch, this`rows, this`cancelled, this`model, this`acts, log
      ensures Coupled() && old(acts) <= acts && done == (old(log.buf) == [])
      ensures if done then model == Persisted(P.DrainStep(old(model)), tries) && model.at.Returned? && log.buf == []
              else model == P.DrainStep(old(model)) && model.at.Draining?
      ensures if done then batch == [] && model.handed == old(model.handed) + (if old(batch) != [] then [old(batch)] else [])
              else batch == old(batch) + [old(log.buf)[0]] && log.buf == old(log.buf)[1..] && model.handed == old(model.handed)
    {
      ghost var s := model;
      if log.buf == [] {
        Did(P.DrainReceive);
        Flush(true, tries, s);
        return true;
      }
      var e := log.Take();
      batch := batch + [e];
      Did(P.DrainReceive);
      return false;
    }

    /** One select of the outer loop, with what happens before it. */
    method TakeTurn(turn: Turn, later: seq<Turn>) returns (done: bool)
      requires Coupled() && model.at.Select?
      modifies this`batch, this`rows, this`cancelled, this`model, this`acts, log
      ensures Coupled() && model == TurnTaken(old(model), turn, later) && old(acts) <= acts
      ensures model.at == (if done then P.Returned else P.Select) && (done ==> log.buf == [] && batch == [])
      ensures turn.pick == PickDone ==> done == (old(cancelled) || turn.cancel)
      ensures turn.pick == PickTick ==> !done && batch == []
      ensures turn.pick == PickReceive ==>
                var queued := old(log.buf) + Fitting(old(log.closed), log.capacity - |old(log.buf)|, turn.arrivals);
                log.buf == (if queued == [] then [] else queued[1..])
                && (done <==> queued == [] && (old(log.closed) || turn.complete))
    {
      Environment(turn);
      if turn.pick == PickReceive {
        done := Receive(turn.tries);
      } else if turn.pick == PickTick {
        Tick(turn.tries);
        done := false;
      } else {
        done := cancelled;
        if cancelled {
          Did(P.SeeCancel);
          Drain(later, turn.tries);
        }
      }
    }

    /** Run, for as long as there are turns. Its fields are where the pipeline gets by `Ran`, which is a
        run of the pipeline's steps; and when Run returns, the channel and the batch are empty and all that
        was accepted until then has been handed to persist. */
    method Run(turns: seq<Turn>) returns (done: bool)
      requires Coupled() && model.at.Select?
      modifies this`batch, this`rows, this`cancelled, this`model, this`acts, log
      ensures Coupled() && model == Ran(old(model), turns) && model == P.Exec(start, acts) && old(acts) <= acts
      ensures model.at == (if done then P.Returned else P.Select)
      ensures done ==> log.buf == [] && batch == [] && P.Flatten(model.handed) == model.accepted
    {
      var i := 0;
      done := false;
      while i < |turns| && !done
        invariant 0 <= i <= |turns|
        invariant Coupled() && model.at == (if done then P.Returned else P.Select) && old(acts) <= acts
        invariant Ran(model, turns[i..]) == Ran(old(model), turns) && (done ==> log.buf == [])
      {
        RanFrom(model, turns, i);
        i := i + 1;
        done := TakeTurn(turns[i - 1], turns[i..]);
      }
      P.LeadsToExec(start, acts, model);
      P.ReachableInv(log.capacity, batchSize, acts);
    }
  }
}
