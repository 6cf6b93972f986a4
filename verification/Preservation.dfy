/** Every event keeps the invariant. */
module Preservation {
  import opened Domain
  import opened TransferIds
  import opened Ledger
  import opened Transfers
  import opened Replies
  import opened Activities
  import opened Workflow
  import opened Protocol
  import opened Invariant

  // ---------------------------------------------------------------------------------------------
  // Anything issued may be delivered
  // ---------------------------------------------------------------------------------------------

  ghost predicate Grows<T>(m: map<nat, T>, m': map<nat, T>) {
    forall n :: n in m ==> n in m' && m'[n] == m[n]
  }

  lemma {:induction false} DecidesStays(l: State, l': State, inputs: Inputs, inputs': Inputs, credits: Credits,
      credits': Credits, e: Entry, r: Resource)
    requires Extends(l, l') && l'.transfers.Keys !! l'.failed && Grows(inputs, inputs') && Grows(credits, credits')
    requires e.FlushDone? ==> e.flush in inputs && Decided(l, UsageRequest(inputs[e.flush]))
    requires e.CreditDone? ==> e.credit in credits
    ensures Decides(l', inputs', credits', e, r) == Decides(l, inputs, credits, e, r)
  {
  }

  /** A verdict, once given, stands. */
  lemma {:induction false} VerdictStays(l: State, l': State, inputs: Inputs, inputs': Inputs, credits: Credits,
      credits': Credits, log: seq<Entry>, r: Resource)
    requires Extends(l, l') && l'.transfers.Keys !! l'.failed && Grows(inputs, inputs') && Grows(credits, credits')
    requires forall e :: e in log && e.FlushDone? ==> e.flush in inputs && Decided(l, UsageRequest(inputs[e.flush]))
    requires forall e :: e in log && e.CreditDone? ==> e.credit in credits
    ensures Verdict(l', inputs', credits', log, r) == Verdict(l, inputs, credits, log, r)
    decreases |log|
  {
    if log != [] {
      assert log[|log| - 1] in log;
      DecidesStays(l, l', inputs, inputs', credits, credits', log[|log| - 1], r);
      VerdictStays(l, l', inputs, inputs', credits, credits', log[..|log| - 1], r);
    }
  }

  lemma {:induction false} FlagsStay(s: Sys, l': State, inputs': Inputs, credits': Credits)
    requires Started(s) && Resolved(s) && Flagged(s)
    requires Extends(s.ledger, l') && l'.transfers.Keys !! l'.failed && Grows(s.inputs, inputs')
    requires Grows(s.credits, credits')
    ensures FlagsOk(s.wf.exceeded, l', inputs', credits', s.log)
  {
    forall r: Resource | !r.IsGauge()
      ensures r in s.wf.exceeded <==> Verdict(l', inputs', credits', s.log, r) == Some(true)
    {
      forall e | e in s.log && e.FlushDone?
        ensures e.flush in s.inputs && Decided(s.ledger, UsageRequest(s.inputs[e.flush]))
      {
        assert FlushDone(e.flush) in s.log;
        assert FlushResolved(s.config, e.flush, s.inputs[e.flush], s.ledger, s.wf.pendingGauge);
      }
      forall e | e in s.log && e.CreditDone? ensures e.credit in s.credits {
        assert CreditDone(e.credit) in s.log;
      }
      VerdictStays(s.ledger, l', s.inputs, inputs', s.credits, credits', s.log, r);
    }
  }

  lemma {:induction false} DeliverBooked(s: Sys, ts: seq<Transfer>)
    requires Booked(s) && AllIssued(s.config, s.inputs, s.credits, ts)
    ensures Booked(s.(ledger := Run(s.ledger, ts)))
    ensures Extends(s.ledger, Run(s.ledger, ts)) && Run(s.ledger, ts).transfers.Keys !! Run(s.ledger, ts).failed
  {
    RunValid(s.ledger, ts);
    RunExtends(s.ledger, ts);
    RunGenuine(s.config, s.inputs, s.credits, s.ledger, ts);
  }

  lemma {:induction false} TracksAllGrow(cfg: Config, inputs: Inputs, inputs': Inputs, done: set<nat>, done': set<nat>,
      l: State, l': State, pending: map<Uuid, TransferId>, bound: nat, bound': nat)
    requires TracksAll(cfg, inputs, done, l, pending, bound)
    requires Grows(inputs, inputs') && done <= done' && Extends(l, l') && bound <= bound'
    ensures TracksAll(cfg, inputs', done', l', pending, bound')
  {
    forall c | c in pending ensures TracksOne(cfg, inputs', done', l', c, pending[c], bound') {
      assert TracksOne(cfg, inputs, done, l, c, pending[c], bound);
    }
  }

  lemma {:induction false} GrowTracks(s: Sys, l': State)
    requires Tracks(s) && Extends(s.ledger, l')
    ensures Tracks(s.(ledger := l'))
  {
    var b := s.wf.flushSeqNo + 1;
    TracksAllGrow(s.config, s.inputs, s.inputs, s.done, s.done, s.ledger, l', s.wf.pendingGauge, b, b);
    forall n | n in s.inputs ensures TracksAll(s.config, s.inputs, s.done, l', s.inputs[n].pendingGauge, n) {
      TracksAllGrow(s.config, s.inputs, s.inputs, s.done, s.done, s.ledger, l', s.inputs[n].pendingGauge, n, n);
    }
  }

  lemma {:induction false} GrowAnswered(s: Sys, l': State)
    requires Answered(s) && Extends(s.ledger, l')
    ensures Answered(s.(ledger := l'))
  {
    forall u | u in s.usageReplies && u.flush in s.inputs
      ensures UsageAnswered(l', UsageRequest(s.inputs[u.flush]), u.perResource)
    {
      UsageAnsweredStays(s.ledger, l', UsageRequest(s.inputs[u.flush]), u.perResource);
    }
    forall rp | rp in s.reports && rp.flush in s.inputs
      ensures FlushAnswered(s.config, l', rp.flush, s.inputs[rp.flush], rp.result)
    {
      FlushAnsweredStays(s.config, s.ledger, l', rp.flush, s.inputs[rp.flush], rp.result);
    }
  }

  lemma {:induction false} FlushResolvedStays(cfg: Config, n: nat, input: BatchInput, l: State, l': State,
      pending: map<Uuid, TransferId>)
    requires FlushResolved(cfg, n, input, l, pending) && Extends(l, l')
    ensures FlushResolved(cfg, n, input, l', pending)
  {
    forall c | c in Latest(input.heartbeats) ensures ResolvedAt(cfg, n, input, l', pending, c) {
      assert ResolvedAt(cfg, n, input, l, pending, c);
    }
  }

  lemma {:induction false} GrowResolved(s: Sys, l': State)
    requires Resolved(s) && Extends(s.ledger, l')
    ensures Resolved(s.(ledger := l'))
  {
    forall n | n in s.done && n in s.inputs ensures FlushResolved(s.config, n, s.inputs[n], l', s.wf.pendingGauge) {
      FlushResolvedStays(s.config, n, s.inputs[n], s.ledger, l', s.wf.pendingGauge);
    }
  }

  /** Delivering issued transfers, in whatever number and order, keeps everything. */
  lemma {:induction false} DeliverInv(s: Sys, ts: seq<Transfer>)
    requires Inv(s) && AllIssued(s.config, s.inputs, s.credits, ts)
    ensures Inv(s.(ledger := Run(s.ledger, ts)))
  {
    var l' := Run(s.ledger, ts);
    DeliverBooked(s, ts);
    GrowTracks(s, l');
    GrowAnswered(s, l');
    GrowResolved(s, l');
    FlagsStay(s, l', s.inputs, s.credits);
  }

  lemma {:induction false} AddUsageReply(s: Sys, u: UsageReply)
    requires Started(s) && Answered(s) && u.flush in s.inputs
    requires UsageAnswered(s.ledger, UsageRequest(s.inputs[u.flush]), u.perResource)
    ensures var s' := s.(usageReplies := s.usageReplies + {u}); Started(s') && Answered(s')
  {
  }

  lemma {:induction false} DeliverUsageInv(s: Sys, n: nat)
    requires Inv(s) && n in s.inputs
    ensures Inv(SendUsage(s, n))
  {
    var ts := UsageRequest(s.inputs[n]);
    var os := Outcomes(s.ledger, ts);
    UsageIssued(s.config, s.inputs, s.credits, n);
    DeliverInv(s, ts);
    if AllClassifiable(os) {
      UsageReplyMeaning(s.ledger, ts);
      AddUsageReply(s.(ledger := Run(s.ledger, ts)), UsageReply(n, PerResource(ts, os)));
    }
  }

  lemma {:induction false} OldReservationsStand(s: Sys, n: nat)
    requires Tracks(s) && n in s.inputs
    ensures forall c :: c in s.inputs[n].pendingGauge ==> s.inputs[n].pendingGauge[c] in s.ledger.transfers
  {
    var pending := s.inputs[n].pendingGauge;
    assert TracksAll(s.config, s.inputs, s.done, s.ledger, pending, n);
    forall c | c in pending ensures pending[c] in s.ledger.transfers {
      assert TracksOne(s.config, s.inputs, s.done, s.ledger, c, pending[c], n);
    }
  }

  lemma {:induction false} GaugeReported(s: Sys, reply: UsageReply, order: seq<Uuid>)
    requires Numbered(s) && Valid(s.ledger) && Tracks(s) && UsageRepliesOk(s.inputs, s.ledger, s.usageReplies)
    requires Enabled(s, DeliverGauge(reply, order))
    ensures var input := s.inputs[reply.flush];
            var ts := GaugeRequest(input, order);
            var os := Outcomes(s.ledger, ts);
            AllTolerated(ts, os) ==>
              FlushAnswered(s.config, Run(s.ledger, ts), reply.flush, input,
                            Report(input, order, reply.perResource, os))
  {
    var input := s.inputs[reply.flush];
    var ts := GaugeRequest(input, order);
    if AllTolerated(ts, Outcomes(s.ledger, ts)) {
      OldReservationsStand(s, reply.flush);
      GaugeReplyMeaning(s.config, s.ledger, reply.flush, input, order, reply.perResource);
    }
  }

  lemma {:induction false} AddReport(s: Sys, rp: FlushReport)
    requires Started(s) && Answered(s) && rp.flush in s.inputs
    requires FlushAnswered(s.config, s.ledger, rp.flush, s.inputs[rp.flush], rp.result)
    ensures Started(s.(reports := s.reports + {rp})) && Answered(s.(reports := s.reports + {rp}))
  {
  }

  lemma {:induction false} DeliverGaugeInv(s: Sys, reply: UsageReply, order: seq<Uuid>)
    requires Inv(s) && Enabled(s, DeliverGauge(reply, order))
    ensures Inv(SendGauge(s, reply, order))
  {
    var input := s.inputs[reply.flush];
    var ts := GaugeRequest(input, order);
    var os := Outcomes(s.ledger, ts);
    GaugeIssued(s.config, s.inputs, s.credits, reply.flush, order);
    DeliverInv(s, ts);
    GaugeReported(s, reply, order);
    if AllTolerated(ts, os) {
      AddReport(s.(ledger := Run(s.ledger, ts)), FlushReport(reply.flush, Report(input, order, reply.perResource, os)));
    }
  }

  lemma {:induction false} AddAck(s: Sys, n: nat)
    requires Started(s) && Flagged(s) && Credited(s) && n in s.credits
    requires CreditTransfer(s.config, n, s.credits[n]).id in s.ledger.transfers
    ensures var s' := s.(acked := s.acked + {n}); Started(s') && Flagged(s') && Credited(s')
  {
  }

  lemma {:induction false} AckedIsCommitted(l: State, t: Transfer)
    requires WellFormed(l) && t.debit.Operator? && t.kind.Posted? && Classifiable(Apply(l, t).outcome)
    ensures t.id in Run(l, [t]).transfers
  {
    assert [t][..0] == [];
    assert Run(l, [t]) == Apply(l, t).state;
    OutcomeMeaning(l, t);
    CreditNeverExceeds(l, t);
  }

  lemma {:induction false} DeliverCreditInv(s: Sys, n: nat)
    requires Inv(s) && n in s.credits
    ensures Inv(SendCredit(s, n))
  {
    var t := CreditTransfer(s.config, n, s.credits[n]);
    CreditIssued(s.config, s.inputs, s.credits, n);
    DeliverInv(s, [t]);
    if Classifiable(Apply(s.ledger, t).outcome) {
      AckedIsCommitted(s.ledger, t);
      AddAck(s.(ledger := Run(s.ledger, [t])), n);
    }
  }

  /** The operator account has no limit. */
  lemma {:induction false} CreditNeverExceeds(l: State, t: Transfer)
    requires t.debit.Operator? && t.kind.Posted?
    ensures !Apply(l, t).outcome.ExceedsCredits?
  {
  }

  lemma {:induction false} DeliverInitialInv(s: Sys)
    requires Inv(s)
    ensures Inv(s.(ledger := Run(s.ledger, InitialRequest(s.config, |AllResources|))))
  {
    InitialIssued(s.config, s.inputs, s.credits);
    DeliverInv(s, InitialRequest(s.config, |AllResources|));
  }

  // ---------------------------------------------------------------------------------------------
  // Signals, starts and ends
  // ---------------------------------------------------------------------------------------------

  lemma {:induction false} HeartbeatInv(s: Sys, hb: Heartbeat)
    requires Inv(s) && Enabled(s, HeartbeatSignal(hb))
    ensures Inv(SignalHeartbeat(s, hb))
  {
  }

  lemma {:induction false} RegisterMarks(processed: map<Uuid, nat>, c: Uuid, lastAck: nat, batch: seq<Heartbeat>,
      inputs: Inputs, done: set<nat>)
    requires c !in processed && BatchOk(processed, batch, inputs, done) && AckOk(processed, lastAck)
    ensures BatchOk(processed[c := 0], batch, inputs, done) && AckOk(processed[c := 0], lastAck)
  {
    var p := processed[c := 0];
    if lastAck != 0 {
      var d :| d in processed && processed[d] == lastAck;
      assert d in p && p[d] == lastAck;
    }
  }

  lemma {:induction false} RegisterSourced(inputs: Inputs, processed: map<Uuid, nat>, pending: map<Uuid, TransferId>,
      c: Uuid)
    requires c !in processed && SourcedAll(inputs, processed, pending)
    ensures SourcedAll(inputs, processed[c := 0], pending)
  {
    forall d | d in pending ensures SourcedAt(inputs, processed[c := 0], d, pending[d].seqNo) {
      assert SourcedAt(inputs, processed, d, pending[d].seqNo);
    }
  }

  lemma {:induction false} RegisterInv(s: Sys, c: Uuid)
    requires Inv(s) && Enabled(s, RegisterSignal(c))
    ensures Inv(s.(wf := OnRegister(s.wf, c)))
  {
    if c !in s.wf.processed {
      RegisterMarks(s.wf.processed, c, s.wf.lastAck, s.wf.batch, s.inputs, s.done);
      RegisterSourced(s.inputs, s.wf.processed, s.wf.pendingGauge, c);
    }
  }

  lemma {:induction false} CarriedGrows(inputs: Inputs, inputs': Inputs, done: set<nat>, done': set<nat>,
      processed: map<Uuid, nat>)
    requires MarksOk(processed, inputs, done) && Grows(inputs, inputs') && done <= done'
    ensures MarksOk(processed, inputs', done')
  {
    forall c | c in processed && processed[c] != 0 ensures CarriedBy(inputs', done', c, processed[c]) {
      var n :| n in done && n in inputs && Carries(inputs[n].heartbeats, c, processed[c]);
      assert n in done' && n in inputs';
    }
  }

  lemma {:induction false} StartTracks(s: Sys, inputs': Inputs)
    requires Tracks(s) && Grows(s.inputs, inputs') && s.wf.flushSeqNo + 1 !in s.inputs
    requires forall n :: n in inputs' && n !in s.inputs ==>
             n == s.wf.flushSeqNo + 1 && inputs'[n].pendingGauge == s.wf.pendingGauge
    ensures Tracks(s.(wf := NextNumber(s.wf), inputs := inputs'))
  {
    var b := s.wf.flushSeqNo + 1;
    TracksAllGrow(s.config, s.inputs, inputs', s.done, s.done, s.ledger, s.ledger, s.wf.pendingGauge, b, b + 1);
    forall n | n in inputs' ensures TracksAll(s.config, inputs', s.done, s.ledger, inputs'[n].pendingGauge, n) {
      if n in s.inputs {
        TracksAllGrow(s.config, s.inputs, inputs', s.done, s.done, s.ledger, s.ledger, s.inputs[n].pendingGauge, n, n);
      } else {
        TracksAllGrow(s.config, s.inputs, inputs', s.done, s.done, s.ledger, s.ledger, s.wf.pendingGauge, b, n);
      }
    }
  }

  lemma {:induction false} SourcedGrows(inputs: Inputs, inputs': Inputs, processed: map<Uuid, nat>,
      pending: map<Uuid, TransferId>)
    requires SourcedAll(inputs, processed, pending) && Grows(inputs, inputs')
    ensures SourcedAll(inputs', processed, pending)
  {
    forall c | c in pending ensures SourcedAt(inputs', processed, c, pending[c].seqNo) {
      assert SourcedAt(inputs, processed, c, pending[c].seqNo);
    }
  }

  lemma {:induction false} StartNumbering(cfg: Config, w: Wf, inputs: Inputs, credits: Credits, done: set<nat>)
    requires w.tenant == cfg.tenant && Numbering(cfg, w.flushSeqNo, inputs, credits) && done <= inputs.Keys
    ensures var n := w.flushSeqNo + 1;
            var inputs' := inputs[n := FlushInput(w, n)];
            && n !in inputs && n !in credits
            && Grows(inputs, inputs')
            && Numbering(cfg, n, inputs', credits)
            && WaitsOn(n, inputs', done, w.batch, w.pendingGauge)
  {
  }

  lemma {:induction false} StartBatch(w: Wf, n: nat, inputs: Inputs, done: set<nat>, received: seq<Heartbeat>)
    requires n !in inputs && done <= inputs.Keys
    requires BatchOk(w.processed, w.batch, inputs, done) && HistoryOk(w.batch, inputs, received)
    requires DisjointFlushes(inputs, done)
    ensures var inputs' := inputs[n := FlushInput(w, n)];
            && BatchOk(w.processed, w.batch, inputs', done) && HistoryOk(w.batch, inputs', received)
            && DisjointFlushes(inputs', done)
  {
  }

  lemma {:induction false} StartReplies(s: Sys, inputs': Inputs)
    requires Started(s) && Answered(s) && Resolved(s) && Grows(s.inputs, inputs')
    ensures UsageRepliesOk(inputs', s.ledger, s.usageReplies) && ReportsOk(s.config, inputs', s.ledger, s.reports)
    ensures forall n :: n in s.done && n in inputs' ==>
            FlushResolved(s.config, n, inputs'[n], s.ledger, s.wf.pendingGauge)
  {
  }

  lemma {:induction false} FlushStartStarted(s: Sys)
    requires Started(s)
    ensures Started(StartFlush(s))
  {
  }

  lemma {:induction false} FlushStartWaits(s: Sys)
    requires s.done <= s.inputs.Keys && s.wf.flushSeqNo + 1 !in s.inputs
    requires forall k :: k in s.inputs ==> k <= s.wf.flushSeqNo
    ensures Waiting(StartFlush(s)) && Grows(s.inputs, StartFlush(s).inputs)
  {
  }

  lemma {:induction false} FlushStartNumbers(s: Sys)
    requires Numbered(s) && s.done <= s.inputs.Keys
    ensures Numbered(StartFlush(s)) && s.wf.flushSeqNo + 1 !in s.inputs
  {
    StartNumbering(s.config, s.wf, s.inputs, s.credits, s.done);
  }

  lemma {:induction false} FlushStartBooks(s: Sys)
    requires Booked(s) && Tracks(s) && Grows(s.inputs, StartFlush(s).inputs) && s.wf.flushSeqNo + 1 !in s.inputs
    ensures Booked(StartFlush(s)) && Tracks(StartFlush(s))
  {
    var s' := StartFlush(s);
    GenuineGrows(s.config, s.inputs, s.credits, s'.inputs, s.credits, s.ledger);
    StartTracks(s, s'.inputs);
  }

  lemma {:induction false} FlushStartContents(s: Sys)
    requires Started(s) && Batched(s) && Disjoint(s) && Marked(s) && Sourced(s)
    requires s.wf.flushSeqNo + 1 !in s.inputs && Grows(s.inputs, StartFlush(s).inputs)
    ensures var s' := StartFlush(s); Batched(s') && Disjoint(s') && Marked(s') && Sourced(s')
  {
    var s' := StartFlush(s);
    StartBatch(s.wf, s.wf.flushSeqNo + 1, s.inputs, s.done, s.received);
    CarriedGrows(s.inputs, s'.inputs, s.done, s.done, s.wf.processed);
    SourcedGrows(s.inputs, s'.inputs, s.wf.processed, s.wf.pendingGauge);
  }

  lemma {:induction false} FlushStartInv(s: Sys)
    requires Inv(s) && Enabled(s, FlushStart)
    ensures Inv(StartFlush(s))
  {
    var s' := StartFlush(s);
    FlushStartStarted(s);
    FlushStartNumbers(s);
    FlushStartWaits(s);
    FlushStartBooks(s);
    FlushStartContents(s);
    StartReplies(s, s'.inputs);
    FlagsStay(s, s.ledger, s'.inputs, s.credits);
  }

  lemma {:induction false} CreditStartBooks(s: Sys, r: Resource, amount: int64)
    requires Numbered(s) && Started(s) && Booked(s) && Tracks(s)
    ensures var s' := StartCredit(s, r, amount);
            Numbered(s') && Started(s') && Booked(s') && Tracks(s') && Grows(s.credits, s'.credits)
  {
    var s' := StartCredit(s, r, amount);
    assert Grows(s.credits, s'.credits);
    GenuineGrows(s.config, s.inputs, s.credits, s.inputs, s'.credits, s.ledger);
    StartTracks(s, s.inputs);
  }

  lemma {:induction false} CreditStartInv(s: Sys, r: Resource, amount: int64)
    requires Inv(s) && Enabled(s, CreditStart(r, amount))
    ensures Inv(StartCredit(s, r, amount))
  {
    CreditStartBooks(s, r, amount);
    FlagsStay(s, s.ledger, s.inputs, StartCredit(s, r, amount).credits);
  }

  lemma {:induction false} CreditCompleteFlags(s: Sys, n: nat)
    requires Flagged(s) && n in s.credits && n in s.acked
    ensures Flagged(CompleteCredit(s, n))
  {
    var s' := CompleteCredit(s, n);
    assert s'.log[..|s'.log| - 1] == s.log;
    forall r: Resource | !r.IsGauge()
      ensures r in s'.wf.exceeded <==> Verdict(s.ledger, s.inputs, s.credits, s'.log, r) == Some(true)
    {
      assert Decides(s.ledger, s.inputs, s.credits, CreditDone(n), r)
             == if s.credits[n].resource == r then Some(false) else None;
    }
  }

  lemma {:induction false} CreditCompleteInv(s: Sys, n: nat)
    requires Inv(s) && Enabled(s, CreditComplete(n))
    ensures Inv(CompleteCredit(s, n))
  {
    CreditCompleteFlags(s, n);
  }

  // ---------------------------------------------------------------------------------------------
  // A flush completes
  // ---------------------------------------------------------------------------------------------

  lemma {:induction false} CompleteTracks(cfg: Config, inputs: Inputs, done: set<nat>, l: State,
      pending: map<Uuid, TransferId>, bound: nat, n: nat, res: BatchResult)
    requires TracksAll(cfg, inputs, done, l, pending, bound)
    requires n in inputs && n < bound && FlushAnswered(cfg, l, n, inputs[n], res)
    ensures TracksAll(cfg, inputs, done + {n}, l, GaugeAfter(pending, res.gauge), bound)
  {
    var pending' := GaugeAfter(pending, res.gauge);
    forall c | c in pending' ensures TracksOne(cfg, inputs, done + {n}, l, c, pending'[c], bound) {
      if c in res.gauge {
        assert ClusterAnswered(cfg, l, n, inputs[n], c, res.gauge[c]);
      } else {
        assert TracksOne(cfg, inputs, done, l, c, pending[c], bound);
      }
    }
  }

  /** Earlier flushes: what the new one replaces is voided, what it leaves alone is still tracked. */
  lemma {:induction false} CompleteResolvedOld(cfg: Config, k: nat, input: BatchInput, n: nat, input': BatchInput,
      l: State, pending: map<Uuid, TransferId>, res: BatchResult)
    requires FlushResolved(cfg, k, input, l, pending) && k <= n
    requires FlushAnswered(cfg, l, n, input', res) && input'.pendingGauge == pending
    ensures FlushResolved(cfg, k, input, l, GaugeAfter(pending, res.gauge))
  {
    var pending' := GaugeAfter(pending, res.gauge);
    forall c | c in Latest(input.heartbeats) ensures ResolvedAt(cfg, k, input, l, pending', c) {
      assert ResolvedAt(cfg, k, input, l, pending, c);
      if c in res.gauge {
        assert ClusterAnswered(cfg, l, n, input', c, res.gauge[c]);
      }
    }
  }

  lemma {:induction false} CompleteResolvedNew(cfg: Config, n: nat, input: BatchInput, l: State,
      pending: map<Uuid, TransferId>, res: BatchResult)
    requires FlushAnswered(cfg, l, n, input, res)
    ensures FlushResolved(cfg, n, input, l, GaugeAfter(pending, res.gauge))
  {
    var pending' := GaugeAfter(pending, res.gauge);
    forall c | c in Latest(input.heartbeats) ensures ResolvedAt(cfg, n, input, l, pending', c) {
      assert c in res.gauge && ClusterAnswered(cfg, l, n, input, c, res.gauge[c]);
    }
  }

  lemma {:induction false} CompleteBatch(processed: map<Uuid, nat>, batch: seq<Heartbeat>, inputs: Inputs,
      done: set<nat>, n: nat)
    requires BatchOk(processed, batch, inputs, done) && n in inputs && inputs[n].heartbeats == batch
    ensures BatchOk(ProcessedAfter(processed, batch), [], inputs, done + {n})
  {
    var p := ProcessedAfter(processed, batch);
    ProcessedIsHighest(processed, batch);
    forall k, hb | k in done + {n} && k in inputs && hb in inputs[k].heartbeats ensures Seen(p, hb) {
      if k in done {
        assert Seen(processed, hb);
      }
    }
  }

  /** New heartbeats lie above the marks, old ones below: no key completes twice. */
  lemma {:induction false} CompleteDisjoint(processed: map<Uuid, nat>, batch: seq<Heartbeat>, inputs: Inputs,
      done: set<nat>, n: nat)
    requires BatchOk(processed, batch, inputs, done) && DisjointFlushes(inputs, done)
    requires n in inputs && inputs[n].heartbeats == batch
    ensures DisjointFlushes(inputs, done + {n})
  {
    forall k | k in done && k in inputs && k != n
      ensures !Share(inputs[k].heartbeats, batch) && !Share(batch, inputs[k].heartbeats)
    {
      forall x, y | x in inputs[k].heartbeats && y in batch ensures !SameKey(x, y) && !SameKey(y, x) {
        assert Seen(processed, x) && !Seen(processed, y);
      }
    }
  }

  lemma {:induction false} CompleteAck(processed: map<Uuid, nat>, lastAck: nat, batch: seq<Heartbeat>)
    requires AckOk(processed, lastAck)
    ensures AckOk(ProcessedAfter(processed, batch), AckAfter(lastAck, batch))
  {
    var p, a := ProcessedAfter(processed, batch), AckAfter(lastAck, batch);
    ProcessedIsHighest(processed, batch);
    AckIsHighest(lastAck, batch);
    forall c | c in p ensures p[c] <= a {
      if !(c in processed && p[c] == processed[c]) {
        assert Carries(batch, c, p[c]);
      }
    }
    if a != 0 {
      if a == lastAck {
        var c :| c in processed && processed[c] == lastAck;
        assert c in p && p[c] == a;
      } else {
        var hb :| hb in batch && hb.seqNo == a;
        assert hb.cluster in p && p[hb.cluster] == a;
      }
    }
  }

  lemma {:induction false} CompleteMarks(processed: map<Uuid, nat>, batch: seq<Heartbeat>, inputs: Inputs,
      done: set<nat>, n: nat)
    requires MarksOk(processed, inputs, done) && n in inputs && inputs[n].heartbeats == batch
    ensures MarksOk(ProcessedAfter(processed, batch), inputs, done + {n})
  {
    var p := ProcessedAfter(processed, batch);
    ProcessedIsHighest(processed, batch);
    forall c | c in p && p[c] != 0 ensures CarriedBy(inputs, done + {n}, c, p[c]) {
      if c in processed && p[c] == processed[c] {
        var k :| k in done && k in inputs && Carries(inputs[k].heartbeats, c, p[c]);
        assert k in done + {n};
      } else {
        assert n in done + {n} && Carries(inputs[n].heartbeats, c, p[c]);
      }
    }
  }

  lemma {:induction false} MarkIsLatest(processed: map<Uuid, nat>, batch: seq<Heartbeat>, c: Uuid)
    requires forall hb :: hb in batch ==> !Seen(processed, hb)
    ensures c in Latest(batch) ==>
            c in ProcessedAfter(processed, batch) && ProcessedAfter(processed, batch)[c] == Latest(batch)[c].seqNo
    ensures c !in Latest(batch) && c in processed ==>
            c in ProcessedAfter(processed, batch) && ProcessedAfter(processed, batch)[c] == processed[c]
  {
    var p := ProcessedAfter(processed, batch);
    ProcessedIsHighest(processed, batch);
    LatestIsHighest(batch);
    if c in Latest(batch) {
      var hb := Latest(batch)[c];
      assert hb in batch && !Seen(processed, hb);
      assert Carries(batch, c, p[c]);
      var x :| x in batch && x.cluster == c && x.seqNo == p[c];
      assert x.seqNo <= hb.seqNo;
    } else if c in processed {
      assert forall hb :: hb in batch ==> hb.cluster != c;
      assert !Carries(batch, c, p[c]);
    }
  }

  lemma {:induction false} CompleteSourced(cfg: Config, processed: map<Uuid, nat>, batch: seq<Heartbeat>,
      inputs: Inputs, l: State, pending: map<Uuid, TransferId>, n: nat, res: BatchResult)
    requires SourcedAll(inputs, processed, pending) && n in inputs && inputs[n].heartbeats == batch
    requires forall hb :: hb in batch ==> !Seen(processed, hb)
    requires FlushAnswered(cfg, l, n, inputs[n], res)
    ensures SourcedAll(inputs, ProcessedAfter(processed, batch), GaugeAfter(pending, res.gauge))
  {
    var pending' := GaugeAfter(pending, res.gauge);
    forall c | c in pending' ensures SourcedAt(inputs, ProcessedAfter(processed, batch), c, pending'[c].seqNo) {
      MarkIsLatest(processed, batch, c);
      if c in res.gauge {
        assert ClusterAnswered(cfg, l, n, inputs[n], c, res.gauge[c]);
      } else {
        assert SourcedAt(inputs, processed, c, pending[c].seqNo);
      }
    }
  }

  lemma {:induction false} CompleteFlags(cfg: Config, exceeded: set<Resource>, l: State, inputs: Inputs,
      credits: Credits, log: seq<Entry>, n: nat, res: BatchResult)
    requires FlagsOk(exceeded, l, inputs, credits, log) && l.transfers.Keys !! l.failed
    requires n in inputs && UsageAnswered(l, UsageRequest(inputs[n]), res.perResource)
    ensures FlagsOk(ExceededAfter(exceeded, res.perResource), l, inputs, credits, log + [FlushDone(n)])
  {
    var log' := log + [FlushDone(n)];
    assert log'[..|log'| - 1] == log;
    forall r: Resource | !r.IsGauge()
      ensures r in ExceededAfter(exceeded, res.perResource) <==> Verdict(l, inputs, credits, log', r) == Some(true)
    {
      assert ResultOfLast(l, UsageRequest(inputs[n]), res.perResource, r);
    }
  }

  lemma {:induction false} CompleteGauge(s: Sys, res: BatchResult)
    requires Inv(s) && Enabled(s, FlushComplete(res))
    ensures Tracks(CompleteFlush(s, res)) && Resolved(CompleteFlush(s, res)) && Sourced(CompleteFlush(s, res))
  {
    var n, s' := s.flushing.value, CompleteFlush(s, res);
    assert FlushAnswered(s.config, s.ledger, n, s.inputs[n], res);
    CompleteTracks(s.config, s.inputs, s.done, s.ledger, s.wf.pendingGauge, s.wf.flushSeqNo + 1, n, res);
    forall k | k in s.inputs ensures TracksAll(s.config, s.inputs, s'.done, s.ledger, s.inputs[k].pendingGauge, k) {
      TracksAllGrow(s.config, s.inputs, s.inputs, s.done, s'.done, s.ledger, s.ledger, s.inputs[k].pendingGauge, k, k);
    }
    forall k | k in s'.done && k in s.inputs
      ensures FlushResolved(s.config, k, s.inputs[k], s.ledger, s'.wf.pendingGauge)
    {
      if k == n {
        CompleteResolvedNew(s.config, n, s.inputs[n], s.ledger, s.wf.pendingGauge, res);
      } else {
        CompleteResolvedOld(s.config, k, s.inputs[k], n, s.inputs[n], s.ledger, s.wf.pendingGauge, res);
      }
    }
    CompleteSourced(s.config, s.wf.processed, s.wf.batch, s.inputs, s.ledger, s.wf.pendingGauge, n, res);
  }

  lemma {:induction false} CompleteSeqs(s: Sys, res: BatchResult)
    requires Inv(s) && Enabled(s, FlushComplete(res))
    ensures Batched(CompleteFlush(s, res)) && Disjoint(CompleteFlush(s, res)) && Marked(CompleteFlush(s, res))
  {
    var n := s.flushing.value;
    CompleteBatch(s.wf.processed, s.wf.batch, s.inputs, s.done, n);
    CompleteDisjoint(s.wf.processed, s.wf.batch, s.inputs, s.done, n);
    CompleteAck(s.wf.processed, s.wf.lastAck, s.wf.batch);
    CompleteMarks(s.wf.processed, s.wf.batch, s.inputs, s.done, n);
  }

  lemma {:induction false} CompleteLog(s: Sys, res: BatchResult)
    requires Inv(s) && Enabled(s, FlushComplete(res))
    ensures Started(CompleteFlush(s, res)) && Flagged(CompleteFlush(s, res))
  {
    var n := s.flushing.value;
    assert FlushAnswered(s.config, s.ledger, n, s.inputs[n], res);
    CompleteFlags(s.config, s.wf.exceeded, s.ledger, s.inputs, s.credits, s.log, n, res);
  }

  lemma {:induction false} FlushCompleteInv(s: Sys, res: BatchResult)
    requires Inv(s) && Enabled(s, FlushComplete(res))
    ensures Inv(CompleteFlush(s, res))
  {
    CompleteGauge(s, res);
    CompleteSeqs(s, res);
    CompleteLog(s, res);
  }

  // ---------------------------------------------------------------------------------------------
  // Every run
  // ---------------------------------------------------------------------------------------------

  lemma {:induction false} RestartInv(s: Sys)
    requires Inv(s) && s.flushing.None?
    ensures Inv(Restart(s))
  {
  }

  lemma {:induction false} IntervalInv(s: Sys, i: nat)
    requires Inv(s)
    ensures Inv(s.(wf := s.wf.(interval := i)))
  {
  }

  lemma {:induction false} GiveUpInv(s: Sys)
    requires Inv(s)
    ensures Inv(GiveUpFlush(s))
  {
  }

  lemma {:induction false} CreditFailInv(s: Sys, n: nat)
    requires Inv(s) && n in s.credits
    ensures Inv(FailCredit(s, n))
  {
  }

  lemma {:induction false} DeliveryInv(s: Sys, e: Event)
    requires Inv(s) && Enabled(s, e) && (e.DeliverUsage? || e.DeliverGauge? || e.DeliverCredit? || e.DeliverInitial?)
    ensures Inv(Next(s, e))
  {
    match e {
      case DeliverUsage(n) => DeliverUsageInv(s, n);
      case DeliverGauge(reply, order) => DeliverGaugeInv(s, reply, order);
      case DeliverCredit(n) => DeliverCreditInv(s, n);
      case DeliverInitial => DeliverInitialInv(s);
    }
  }

  lemma {:induction false} CreditStepInv(s: Sys, e: Event)
    requires Inv(s) && Enabled(s, e) && (e.CreditStart? || e.CreditComplete? || e.CreditFail?)
    ensures Inv(Next(s, e))
  {
    match e {
      case CreditStart(r, amount) => CreditStartInv(s, r, amount);
      case CreditComplete(n) => CreditCompleteInv(s, n);
      case CreditFail(n) => CreditFailInv(s, n);
    }
  }

  lemma {:induction false} SignalInv(s: Sys, e: Event)
    requires Inv(s) && Enabled(s, e) && (e.HeartbeatSignal? || e.RegisterSignal? || e.IdleTimer? || e.ContinueAsNew?)
    ensures Inv(Next(s, e))
  {
    match e {
      case HeartbeatSignal(hb) => HeartbeatInv(s, hb);
      case RegisterSignal(c) => RegisterInv(s, c);
      case IdleTimer => IntervalInv(s, IntervalAfterTimer(s.wf, false));
      case ContinueAsNew => RestartInv(s);
    }
  }

  lemma {:induction false} FlushStepInv(s: Sys, e: Event)
    requires Inv(s) && Enabled(s, e) && (e.FlushStart? || e.FlushComplete? || e.FlushGiveUp?)
    ensures Inv(Next(s, e))
  {
    match e {
      case FlushStart => FlushStartInv(s);
      case FlushComplete(res) => FlushCompleteInv(s, res);
      case FlushGiveUp => GiveUpInv(s);
    }
  }

  lemma {:induction false} NextInv(s: Sys, e: Event)
    requires Inv(s)
    ensures Inv(Next(s, e))
  {
    if !Enabled(s, e) {
    } else if e.HeartbeatSignal? || e.RegisterSignal? || e.IdleTimer? || e.ContinueAsNew? {
      SignalInv(s, e);
    } else if e.FlushStart? || e.FlushComplete? || e.FlushGiveUp? {
      FlushStepInv(s, e);
    } else if e.CreditStart? || e.CreditComplete? || e.CreditFail? {
      CreditStepInv(s, e);
    } else {
      DeliveryInv(s, e);
    }
  }

  lemma {:induction false} InitInv(cfg: Config)
    ensures Inv(Init(cfg))
  {
    var s := Init(cfg);
    var l0, ts := EmptyLedger(TenantAccounts(cfg.tenant)), InitialRequest(cfg, |AllResources|);
    EmptyLedgerValid(TenantAccounts(cfg.tenant));
    RunValid(l0, ts);
    RunExtends(l0, ts);
    InitialIssued(cfg, map[], map[]);
    RunGenuine(cfg, map[], map[], l0, ts);
    forall r | r in cfg.initial
      ensures InitialTransfer(cfg, r).id in s.ledger.transfers
      ensures s.ledger.transfers[InitialTransfer(cfg, r).id] == InitialTransfer(cfg, r)
    {
      InitialCommitted(cfg, r);
    }
  }

  /** The first allocation is on the ledger, in full, for every resource that has one. */
  lemma {:induction false} InitialCommitted(cfg: Config, r: Resource)
    requires r in cfg.initial
    ensures var t, l := InitialTransfer(cfg, r), Init(cfg).ledger;
            t.id in l.transfers && l.transfers[t.id] == t
  {
    var l0, ts, t :=
        EmptyLedger(TenantAccounts(cfg.tenant)), InitialRequest(cfg, |AllResources|), InitialTransfer(cfg, r);
    EmptyLedgerValid(TenantAccounts(cfg.tenant));
    RunValid(l0, ts);
    InitialMembers(cfg, t);
    InitialIssued(cfg, map[], map[]);
    RunGenuine(cfg, map[], map[], l0, ts);
    forall x | x in ts
      ensures x.debit.Operator? && x.kind.Posted? && x.debit in l0.accounts && x.credit in l0.accounts
    {
      InitialMembers(cfg, x);
      EveryResource(x.id.ledger);
    }
    NothingBurnt(l0, ts);
    RunSettles(l0, ts);
  }

  lemma {:induction false} EveryResource(r: Resource)
    ensures r in AllResources
  {
    assert AllResources[0] == CpuHours && AllResources[1] == MemoryGBHours && AllResources[2] == ActiveNodes;
  }

  lemma {:induction false} NothingBurnt(l: State, ts: seq<Transfer>)
    requires Valid(l) && l.failed == {}
    requires forall t :: t in ts ==>
             t.debit.Operator? && t.kind.Posted? && t.debit in l.accounts && t.credit in l.accounts
    ensures Run(l, ts).failed == {}
    decreases |ts|
  {
    if ts != [] {
      NothingBurnt(l, ts[..|ts| - 1]);
      RunExtends(l, ts[..|ts| - 1]);
    }
  }

  lemma {:induction false} NothingBurntAtFirst(cfg: Config)
    ensures Init(cfg).ledger.failed == {}
  {
    var l0, ts := EmptyLedger(TenantAccounts(cfg.tenant)), InitialRequest(cfg, |AllResources|);
    EmptyLedgerValid(TenantAccounts(cfg.tenant));
    forall t | t in ts
      ensures t.debit.Operator? && t.kind.Posted? && t.debit in l0.accounts && t.credit in l0.accounts
    {
      InitialMembers(cfg, t);
      EveryResource(t.id.ledger);
    }
    NothingBurnt(l0, ts);
  }

  /** Every state of every run, from provisioning on, meets the invariant. */
  lemma {:induction false} ExecInv(cfg: Config, es: seq<Event>)
    ensures Inv(Exec(Init(cfg), es))
    decreases |es|
  {
    if es == [] {
      InitInv(cfg);
    } else {
      ExecInv(cfg, es[..|es| - 1]);
      NextInv(Exec(Init(cfg), es[..|es| - 1]), es[|es| - 1]);
    }
  }
}
