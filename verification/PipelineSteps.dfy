/** What each step of the audit pipeline does, said of the channel, the batch and the outcomes themselves. */
module PipelineSteps {
  import opened AuditPipeline

  /** Of the calls of Enqueue, one on an open channel with room adds the event at the end, one on an open full
      channel is dropped and counted, one on a closed channel leaves no trace in the log. */
  lemma EnqueueDropsIffFull(capacity: int, batchSize: int, acts: seq<Act>, e: Event)
    ensures var s := Exec(Init(capacity, batchSize), acts); var s' := Step(s, Enqueue(e));
            && (s'.log.buf == s.log.buf + [e] <==> !s.log.closed && |s.log.buf| < s.log.capacity)
            && (s'.log.dropped == s.log.dropped + 1 <==> !s.log.closed && |s.log.buf| == s.log.capacity)
            && (s'.log.buf != s.log.buf + [e] ==> s'.log.buf == s.log.buf)
            && (s'.log.dropped != s.log.dropped + 1 ==> s'.log.dropped == s.log.dropped)
            && s'.log.capacity == s.log.capacity == (if capacity < 1 then 1 else capacity)
            && s'.log.closed == s.log.closed && s'.batch == s.batch && s'.at == s.at && s'.handed == s.handed
            && s'.accepted == (if s'.log.buf == s.log.buf + [e] then s.accepted + [e] else s.accepted)
            && s'.swallowed == (if s.log.closed then s.swallowed + 1 else s.swallowed)
  {
    ReachableInv(capacity, batchSize, acts);
    CapacityStays(Init(capacity, batchSize), acts);
  }

  lemma {:induction false} CapacityStays(s: State, acts: seq<Act>)
    ensures Exec(s, acts).log.capacity == s.log.capacity && Exec(s, acts).batchSize == s.batchSize
  {
    if acts != [] {
      CapacityStays(s, acts[..|acts| - 1]);
      StepKeepsSizes(Exec(s, acts[..|acts| - 1]), acts[|acts| - 1]);
    }
  }

  lemma StepKeepsSizes(s: State, act: Act)
    ensures Step(s, act).log.capacity == s.log.capacity && Step(s, act).batchSize == s.batchSize
  {}

  /** Receiving takes the oldest event; the batch is handed over exactly when the event fills it. On a closed,
      empty channel the rest is handed over for the last time, on an open one nothing happens. */
  lemma ReceiveHandsOverIffFull(s: State)
    requires s.at.Select?
    ensures var s' := Step(s, Receive);
            if s.log.buf != [] then
              && s'.log == s.log.(buf := s.log.buf[1..])
              && (if |s.batch| + 1 >= s.batchSize
                  then s'.at.Inserting? && !s'.final && s'.attempt == 1 && s'.batch == []
                       && s'.handed == s.handed + [s.batch + [s.log.buf[0]]]
                  else s'.at.Select? && s'.batch == s.batch + [s.log.buf[0]] && s'.handed == s.handed)
            else if s.log.closed then
              s'.final && s'.batch == [] && s'.log == s.log
              && (if s.batch == [] then s'.at.Returned? && s'.handed == s.handed
                  else s'.at.Inserting? && s'.attempt == 1 && s'.handed == s.handed + [s.batch])
            else s' == s
  {}

  /** The ticker hands over what there is; the cancellation is seen once there is one; after it events are
      taken as long as there are any, and then the rest is handed over for the last time. */
  lemma TickAndDrainHandOver(s: State)
    ensures s.at.Select? ==>
              var s' := Step(s, Tick);
              s'.batch == [] && s'.log == s.log && !s'.final
              && (if s.batch == [] then s'.at.Select? && s'.handed == s.handed
                  else s'.at.Inserting? && s'.attempt == 1 && s'.handed == s.handed + [s.batch])
    ensures s.at.Select? ==> (Step(s, SeeCancel).at.Draining? <==> s.cancelled)
    ensures s.at.Draining? ==>
              var s' := Step(s, DrainReceive);
              if s.log.buf != [] then
                s'.at.Draining? && s'.batch == s.batch + [s.log.buf[0]] && s'.log.buf == s.log.buf[1..] && s'.handed == s.handed
              else
                s'.final && s'.batch == [] && s'.log == s.log
                && (if s.batch == [] then s'.at.Returned? && s'.handed == s.handed
                    else s'.at.Inserting? && s'.attempt == 1 && s'.handed == s.handed + [s.batch])
  {}

  /** A failed insert is retried if and only if it was not the fourth and the context persist runs on is not
      done: that of the run, or for the final batch one of its own. */
  lemma FailedInsertRetriesIff(s: State, timedOut: bool)
    requires s.at.Inserting?
    ensures var s' := Step(s, InsertFails(timedOut));
            && (s'.at.Waiting? <==> s.attempt < 4 && !(if s.final then timedOut else s.cancelled))
            && (if s'.at.Waiting? then s' == s.(at := Waiting)
                else s'.outcomes == s.outcomes + [Logged(s.attempt)] && s'.at == (if s.final then Returned else Select))
            && s'.stored == s.stored && s'.log == s.log && s'.handed == s.handed
  {}

  /** After the wait comes the next attempt; a context that is done during it ends persist without a log entry. */
  lemma WaitEnds(s: State)
    requires s.at.Waiting?
    ensures var s' := Step(s, WaitOver); s'.at.Inserting? && s'.attempt == s.attempt + 1 && s'.handed == s.handed
    ensures var s' := Step(s, WaitCancelled);
            if s.final || s.cancelled
            then s'.outcomes == s.outcomes + [Abandoned(s.attempt)] && s'.at == (if s.final then Returned else Select)
                 && s'.stored == s.stored
            else s' == s
  {}

  /** A successful insert stores the batch handed over last and settles it. */
  lemma InsertStores(s: State)
    requires s.at.Inserting? && s.handed != []
    ensures var s' := Step(s, InsertOk);
            s'.stored == s.stored + s.handed[|s.handed| - 1] && s'.outcomes == s.outcomes + [Inserted(s.attempt)]
            && s'.at == (if s.final then Returned else Select) && s'.handed == s.handed
  {}
}
