/** How runs go on: what only grows, what a redelivery changes, and what is lost. */
module Continuity {
  import opened Domain
  import opened TransferIds
  import opened Ledger
  import opened Transfers
  import opened Activities
  import opened Workflow
  import opened Protocol
  import opened Invariant
  import opened Preservation
  import opened Guarantees
  import opened Attempts
  import opened History

  // ---------------------------------------------------------------------------------------------
  // History grows
  // ---------------------------------------------------------------------------------------------

  ghost predicate Rises(p: map<Uuid, nat>, p': map<Uuid, nat>) {
    forall c :: c in p ==> c in p' && p[c] <= p'[c]
  }

  /** Nothing on the ledger is undone, nothing issued is forgotten, and no mark goes back. */
  ghost predicate Continues(s: Sys, s': Sys) {
    && s'.config == s.config
    && Extends(s.ledger, s'.ledger)
    && Grows(s.inputs, s'.inputs) && Grows(s.credits, s'.credits)
    && s.done <= s'.done
    && Rises(s.wf.processed, s'.wf.processed) && s.wf.lastAck <= s'.wf.lastAck && s.wf.flushSeqNo <= s'.wf.flushSeqNo
  }

  lemma {:induction false} SendContinues(s: Sys, s': Sys, ts: seq<Transfer>)
    requires Valid(s.ledger) && s'.ledger == Run(s.ledger, ts)
    requires s'.config == s.config && s'.inputs == s.inputs && s'.credits == s.credits && s'.done == s.done
    requires s'.wf == s.wf
    ensures Continues(s, s')
  {
    RunExtends(s.ledger, ts);
  }

  lemma {:induction false} CompleteContinues(s: Sys, res: BatchResult)
    requires s.flushing.Some?
    ensures Continues(s, CompleteFlush(s, res))
  {
    ProcessedIsHighest(s.wf.processed, s.wf.batch);
    AckIsHighest(s.wf.lastAck, s.wf.batch);
  }

  lemma {:induction false} StartsContinue(s: Sys, r: Resource, amount: int64)
    requires Numbered(s)
    ensures Continues(s, StartFlush(s)) && Continues(s, StartCredit(s, r, amount))
  {
    assert s.wf.flushSeqNo + 1 !in s.inputs && s.wf.flushSeqNo + 1 !in s.credits;
  }

  predicate IsDelivery(e: Event) {
    e.DeliverUsage? || e.DeliverGauge? || e.DeliverCredit? || e.DeliverInitial?
  }

  lemma {:induction false} DeliveryContinues(s: Sys, e: Event)
    requires Valid(s.ledger) && Enabled(s, e) && IsDelivery(e)
    ensures Continues(s, Next(s, e))
  {
    match e {
      case DeliverUsage(n) => SendContinues(s, SendUsage(s, n), UsageRequest(s.inputs[n]));
      case DeliverGauge(reply, order) => SendContinues(s, SendGauge(s, reply, order),
                                                       GaugeRequest(s.inputs[reply.flush], order));
      case DeliverCredit(n) => SendContinues(s, SendCredit(s, n), [CreditTransfer(s.config, n, s.credits[n])]);
      case DeliverInitial => SendContinues(s, Next(s, e), InitialRequest(s.config, |AllResources|));
    }
  }

  lemma {:induction false} NextContinues(s: Sys, e: Event)
    requires Numbered(s) && Valid(s.ledger)
    ensures Continues(s, Next(s, e))
  {
    if !Enabled(s, e) {
    } else if IsDelivery(e) {
      DeliveryContinues(s, e);
    } else {
      HandlerContinues(s, e);
    }
  }

  lemma {:induction false} HandlerContinues(s: Sys, e: Event)
    requires Numbered(s) && Enabled(s, e) && !IsDelivery(e)
    ensures Continues(s, Next(s, e))
  {
    match e {
      case FlushComplete(res) => CompleteContinues(s, res);
      case FlushStart => StartsContinue(s, CpuHours, 0);
      case CreditStart(r, amount) => StartsContinue(s, r, amount);
      case _ =>
    }
  }

  lemma {:induction false} ContinuesTransitive(a: Sys, b: Sys, c: Sys)
    requires Continues(a, b) && Continues(b, c)
    ensures Continues(a, c)
  {
  }

  /** From any reached state on, whatever happens next. */
  lemma {:induction false} ExecContinues(s: Sys, es: seq<Event>)
    requires Inv(s)
    ensures Inv(Exec(s, es)) && Continues(s, Exec(s, es))
    decreases |es|
  {
    if es != [] {
      var zs := es[..|es| - 1];
      ExecContinues(s, zs);
      NextInv(Exec(s, zs), es[|es| - 1]);
      NextContinues(Exec(s, zs), es[|es| - 1]);
      ContinuesTransitive(s, Exec(s, zs), Exec(s, es));
    }
  }

  lemma {:induction false} ExecSnoc(s: Sys, es: seq<Event>, e: Event)
    ensures Exec(s, es + [e]) == Next(Exec(s, es), e)
  {
    assert (es + [e])[..|es|] == es;
  }

  lemma {:induction false} ExecConcat(s: Sys, es: seq<Event>, fs: seq<Event>)
    ensures Exec(s, es + fs) == Exec(Exec(s, es), fs)
    decreases |fs|
  {
    if fs == [] {
      assert es + fs == es;
    } else {
      var gs, f := fs[..|fs| - 1], fs[|fs| - 1];
      ExecConcat(s, es, gs);
      assert es + fs == es + gs + [f];
      ExecSnoc(s, es + gs, f);
    }
  }

  function Signals(hbs: seq<Heartbeat>): seq<Event> {
    seq(|hbs|, i requires 0 <= i < |hbs| => HeartbeatSignal(hbs[i]))
  }

  /** New heartbeats, one after the other, fill the batch. */
  lemma {:induction false} SignalsFill(s: Sys, hbs: seq<Heartbeat>)
    requires s.flushing.None? && forall hb :: hb in hbs ==> hb.seqNo >= 1 && !SeenBefore(s.wf, hb)
    ensures Exec(s, Signals(hbs)) == s.(wf := s.wf.(batch := s.wf.batch + hbs), received := s.received + hbs)
    decreases |hbs|
  {
    if hbs == [] {
      assert s.wf.batch + hbs == s.wf.batch && s.received + hbs == s.received;
    } else {
      var zs, z := hbs[..|hbs| - 1], hbs[|hbs| - 1];
      SignalsFill(s, zs);
      assert z in hbs && hbs == zs + [z];
      assert Signals(hbs) == Signals(zs) + [HeartbeatSignal(z)];
      ExecSnoc(s, Signals(zs), HeartbeatSignal(z));
      assert s.wf.batch + hbs == s.wf.batch + zs + [z] && s.received + hbs == s.received + zs + [z];
    }
  }

  /** From any idle state with an empty batch: new heartbeats, and a flush of them. */
  lemma {:induction false} FlushOfNew(s: Sys, hbs: seq<Heartbeat>)
    requires s.flushing.None? && s.wf.batch == [] && hbs != []
    requires forall hb :: hb in hbs ==> hb.seqNo >= 1 && !SeenBefore(s.wf, hb)
    ensures Exec(s, Signals(hbs) + [FlushStart]) ==
            StartFlush(s.(wf := s.wf.(batch := hbs), received := s.received + hbs))
  {
    SignalsFill(s, hbs);
    assert [] + hbs == hbs;
    ExecSnoc(s, Signals(hbs), FlushStart);
  }

  // ---------------------------------------------------------------------------------------------
  // A request acts at most once
  // ---------------------------------------------------------------------------------------------

  /** The events that bring one and the same request to the ledger. */
  predicate SameRequest(e: Event, f: Event) {
    || (e.DeliverUsage? && f == e)
    || (e.DeliverCredit? && f == e)
    || (e.DeliverInitial? && f == e)
    || (e.DeliverGauge? && f.DeliverGauge? && f.reply.flush == e.reply.flush)
  }

  /** A later state than one in which `s0`'s request was delivered, with ledger `l`. */
  ghost predicate LaterThan(s0: Sys, l: State, s: Sys) {
    && WellFormed(s.ledger) && Extends(l, s.ledger)
    && s.config == s0.config && Grows(s0.inputs, s.inputs) && Grows(s0.credits, s.credits)
  }

  lemma {:induction false} LaterState(s0: Sys, s1: Sys, between: seq<Event>)
    requires Inv(s1) && Continues(s0, s1)
    ensures LaterThan(s0, s1.ledger, Exec(s1, between))
  {
    ExecContinues(s1, between);
    ContinuesTransitive(s0, s1, Exec(s1, between));
  }

  lemma {:induction false} GaugeRequestRedelivered(s0: Sys, reply: UsageReply, o: seq<Uuid>, s: Sys, f: Event)
    requires Inv(s0) && Enabled(s0, DeliverGauge(reply, o))
    requires f.DeliverGauge? && f.reply.flush == reply.flush && Enabled(s, f)
    requires LaterThan(s0, SendGauge(s0, reply, o).ledger, s)
    ensures SendGauge(s, f.reply, f.order).ledger == s.ledger
  {
    GaugeRedelivered(s0, reply.flush, o, f.order, s.ledger);
  }

  lemma {:induction false} SameEventRedelivered(s0: Sys, e: Event, s: Sys)
    requires Inv(s0) && Enabled(s0, e) && (e.DeliverUsage? || e.DeliverCredit? || e.DeliverInitial?)
    requires LaterThan(s0, Next(s0, e).ledger, s)
    ensures Next(s, e).ledger == s.ledger
  {
    match e {
      case DeliverUsage(n) => UsageRedelivered(s0, n, s.ledger);
      case DeliverCredit(n) => CreditRedelivered(s0, n, s.ledger);
      case DeliverInitial => InitialRedelivered(s0, s.ledger);
    }
  }

  lemma {:induction false} RequestRedelivered(s0: Sys, e: Event, s: Sys, f: Event)
    requires Inv(s0) && Enabled(s0, e) && SameRequest(e, f) && LaterThan(s0, Next(s0, e).ledger, s) && Enabled(s, f)
    ensures Next(s, f).ledger == s.ledger
  {
    if e.DeliverGauge? {
      GaugeRequestRedelivered(s0, e.reply, e.order, s, f);
    } else {
      SameEventRedelivered(s0, e, s);
    }
  }

  /**
   * However often a request is attempted, by whatever attempt, however late and in whatever
   * order of clusters: only its first delivery can change the ledger.
   */
  lemma {:induction false} RequestActsOnce(cfg: Config, es: seq<Event>, e: Event, between: seq<Event>, f: Event)
    requires SameRequest(e, f) && Enabled(Exec(Init(cfg), es), e)
    ensures var s := Exec(Next(Exec(Init(cfg), es), e), between);
            Next(s, f).ledger == s.ledger
  {
    var s0 := Exec(Init(cfg), es);
    var s := Exec(Next(s0, e), between);
    ExecInv(cfg, es);
    NextInv(s0, e);
    NextContinues(s0, e);
    LaterState(s0, Next(s0, e), between);
    if Enabled(s, f) {
      RequestRedelivered(s0, e, s, f);
    }
  }

  // ---------------------------------------------------------------------------------------------
  // Reservations of given-up flushes
  // ---------------------------------------------------------------------------------------------

  /** Flush `n` was given up. */
  predicate GivenUp(s: Sys, n: nat) {
    n in s.inputs && n !in s.done && s.flushing != Some(n)
  }

  lemma {:induction false} GivenUpStays(s: Sys, n: nat, e: Event)
    requires Numbered(s) && GivenUp(s, n)
    ensures GivenUp(Next(s, e), n)
  {
    if e.FlushStart? {
      assert n != s.wf.flushSeqNo + 1;
    }
  }

  lemma {:induction false} StaysLeftBehind(s: Sys, id: TransferId, es: seq<Event>)
    requires Inv(s) && id.GaugePendingId? && GivenUp(s, id.seqNo) && id in s.ledger.transfers
    ensures GivenUp(Exec(s, es), id.seqNo) && IsOpen(Exec(s, es).ledger, id) && !IsTracked(Exec(s, es), id)
    decreases |es|
  {
    var s' := Exec(s, es);
    ExecContinues(s, es);
    if es != [] {
      StaysLeftBehind(s, id, es[..|es| - 1]);
      ExecContinues(s, es[..|es| - 1]);
      GivenUpStays(Exec(s, es[..|es| - 1]), id.seqNo, es[|es| - 1]);
    }
    OpenIsTrackedOrLeft(s', id);
    if IsTracked(s', id) {
      TrackedIsDone(s', id);
    }
  }

  /**
   * What a given-up flush has reserved, or still reserves through a late attempt, stays reserved
   * for good: no later event releases it, and the workflow never knows of it.
   */
  lemma {:induction false} LeftBehindForever(cfg: Config, before: seq<Event>, id: TransferId, es: seq<Event>)
    requires id.GaugePendingId? && GivenUp(Exec(Init(cfg), before), id.seqNo)
    requires id in Exec(Init(cfg), before).ledger.transfers
    ensures var s := Exec(Exec(Init(cfg), before), es); IsOpen(s.ledger, id) && !IsTracked(s, id)
  {
    ExecInv(cfg, before);
    StaysLeftBehind(Exec(Init(cfg), before), id, es);
  }

  // ---------------------------------------------------------------------------------------------
  // What the workflow discards
  // ---------------------------------------------------------------------------------------------

  /** No earlier signal of the cluster has a higher number, and one with the same number is the same signal. */
  predicate Follows(received: seq<Heartbeat>, hb: Heartbeat) {
    forall x :: x in received && x.cluster == hb.cluster ==> x.seqNo <= hb.seqNo && (x.seqNo == hb.seqNo ==> x == hb)
  }

  ghost predicate InCompletedFlush(inputs: Inputs, done: set<nat>, hb: Heartbeat) {
    exists n :: n in done && n in inputs && hb in inputs[n].heartbeats
  }

  lemma {:induction false} MarkWasCompleted(processed: map<Uuid, nat>, batch: seq<Heartbeat>, inputs: Inputs,
      done: set<nat>, received: seq<Heartbeat>, hb: Heartbeat)
    requires MarksOk(processed, inputs, done) && HistoryOk(batch, inputs, received)
    requires hb.seqNo >= 1 && Follows(received, hb) && Seen(processed, hb)
    ensures InCompletedFlush(inputs, done, hb)
  {
    var c := hb.cluster;
    assert CarriedBy(inputs, done, c, processed[c]);
    var n :| n in done && n in inputs && Carries(inputs[n].heartbeats, c, processed[c]);
    var x :| x in inputs[n].heartbeats && x.cluster == c && x.seqNo == processed[c];
    assert x in received;
  }

  /** When signals arrive in order, what is skipped as a duplicate is in a completed flush. */
  lemma {:induction false} DiscardedWasProcessed(cfg: Config, es: seq<Event>, hb: Heartbeat)
    requires hb.seqNo >= 1 && Follows(Exec(Init(cfg), es).received, hb) && SeenBefore(Exec(Init(cfg), es).wf, hb)
    ensures var s := Exec(Init(cfg), es); InCompletedFlush(s.inputs, s.done, hb)
  {
    var s := Exec(Init(cfg), es);
    assert Marked(s) && Batched(s) by { ExecInv(cfg, es); }
    MarkWasCompleted(s.wf.processed, s.wf.batch, s.inputs, s.done, s.received, hb);
  }

  // ---------------------------------------------------------------------------------------------
  // A refused charge whose reply was lost
  // ---------------------------------------------------------------------------------------------

  /** The batch holds a heartbeat whose charge was already refused, and no attempt got past that. */
  ghost predicate Stuck(s: Sys, hb: Heartbeat, r: Resource) {
    && hb in s.wf.batch && Billed(hb, r) && UsageId(hb.cluster, hb.seqNo, r) in s.ledger.failed
    && (s.flushing.Some? ==>
          && (forall u :: u in s.usageReplies ==> u.flush != s.flushing.value)
          && (forall rp :: rp in s.reports ==> rp.flush != s.flushing.value))
  }

  lemma {:induction false} BurntIsNotClassifiable(l: State, ts: seq<Transfer>, t: Transfer)
    requires Valid(l) && t in ts && t.id in l.failed
    ensures !AllClassifiable(Outcomes(l, ts))
  {
    var i :| 0 <= i < |ts| && ts[i] == t;
    OutcomesByIndex(l, ts, i);
    RunValid(l, ts[..i]);
    RunExtends(l, ts[..i]);
    assert Outcomes(l, ts)[i] == IdAlreadyFailed;
  }

  lemma {:induction false} StuckUsage(s: Sys, hb: Heartbeat, r: Resource, n: nat)
    requires Numbered(s) && Waiting(s) && Valid(s.ledger) && Stuck(s, hb, r) && n in s.inputs
    ensures Stuck(SendUsage(s, n), hb, r)
  {
    RunExtends(s.ledger, UsageRequest(s.inputs[n]));
    if s.flushing == Some(n) {
      var t := UsageTransfer(s.config.tenant, hb, r);
      UsageBatchMembers(s.config.tenant, s.inputs[n].heartbeats, t);
      BurntIsNotClassifiable(s.ledger, UsageRequest(s.inputs[n]), t);
    }
  }

  lemma {:induction false} StuckStart(s: Sys, hb: Heartbeat, r: Resource)
    requires Numbered(s) && Started(s) && Stuck(s, hb, r)
    ensures Stuck(StartFlush(s), hb, r)
  {
    var n := s.wf.flushSeqNo + 1;
    assert n !in s.inputs;
  }

  lemma {:induction false} StuckGauge(s: Sys, hb: Heartbeat, r: Resource, reply: UsageReply, order: seq<Uuid>)
    requires Valid(s.ledger) && Stuck(s, hb, r) && Enabled(s, DeliverGauge(reply, order))
    ensures Stuck(SendGauge(s, reply, order), hb, r)
  {
    RunExtends(s.ledger, GaugeRequest(s.inputs[reply.flush], order));
  }

  lemma {:induction false} StuckSend(s: Sys, hb: Heartbeat, r: Resource, ts: seq<Transfer>, acked: set<nat>)
    requires Valid(s.ledger) && Stuck(s, hb, r)
    ensures Stuck(s.(ledger := Run(s.ledger, ts), acked := acked), hb, r)
  {
    RunExtends(s.ledger, ts);
  }

  lemma {:induction false} StuckStays(s: Sys, hb: Heartbeat, r: Resource, e: Event)
    requires Numbered(s) && Started(s) && Waiting(s) && Valid(s.ledger) && Stuck(s, hb, r) && e != ContinueAsNew
    ensures Stuck(Next(s, e), hb, r) && Next(s, e).done == s.done
  {
    if Enabled(s, e) {
      match e {
        case FlushStart => StuckStart(s, hb, r);
        case DeliverUsage(n) => StuckUsage(s, hb, r, n);
        case DeliverGauge(reply, order) => StuckGauge(s, hb, r, reply, order);
        case DeliverCredit(n) => StuckSend(s, hb, r, [CreditTransfer(s.config, n, s.credits[n])],
                                           SendCredit(s, n).acked);
        case DeliverInitial => StuckSend(s, hb, r, InitialRequest(s.config, |AllResources|), s.acked);
        case _ =>
      }
    }
  }

  lemma {:induction false} StuckForever(s: Sys, hb: Heartbeat, r: Resource, es: seq<Event>)
    requires Inv(s) && Stuck(s, hb, r) && ContinueAsNew !in es
    ensures Stuck(Exec(s, es), hb, r) && Exec(s, es).done == s.done
    decreases |es|
  {
    if es != [] {
      StuckForever(s, hb, r, es[..|es| - 1]);
      ExecContinues(s, es[..|es| - 1]);
      StuckStays(Exec(s, es[..|es| - 1]), hb, r, es[|es| - 1]);
    }
  }

  /**
   * A flush gave up although one of its charges had been refused: the refusal burnt the charge's
   * ID, so no later flush of the retained batch can complete, until a restart drops the batch.
   */
  lemma {:induction false} RefusedThenLostNeverCompletes(cfg: Config, before: seq<Event>, hb: Heartbeat, r: Resource,
      es: seq<Event>)
    requires Exec(Init(cfg), before).flushing.None? && hb in Exec(Init(cfg), before).wf.batch && Billed(hb, r)
    requires UsageId(hb.cluster, hb.seqNo, r) in Exec(Init(cfg), before).ledger.failed
    requires ContinueAsNew !in es
    ensures var s := Exec(Init(cfg), before);
            hb in Exec(s, es).wf.batch && Exec(s, es).done == s.done
  {
    ExecInv(cfg, before);
    StuckForever(Exec(Init(cfg), before), hb, r, es);
  }
}
