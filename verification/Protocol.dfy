/**
 * The whole accounting protocol of a tenant as a state machine: workflow, ledger and everything
 * in between. Activities are attempted any number of times, attempts may outlive the flush or
 * credit they belong to, and any reply may be lost. So every request that was ever issued may
 * reach the ledger at any later moment, any number of times, and a flush or credit that is
 * waiting may see any reply produced so far, or give up.
 */
module Protocol {
  import opened Domain
  import opened Ledger
  import opened Transfers
  import opened Activities
  import opened Workflow

  /** What provisioning fixed: the tenant and its first allocation, numbered by the period start. */
  datatype Config = Config(tenant: Uuid, periodStart: nat, initial: map<Resource, nat>)

  datatype CreditRequest = CreditRequest(resource: Resource, amount: nat)

  datatype UsageReply = UsageReply(flush: nat, perResource: map<Resource, TransferResult>)

  datatype FlushReport = FlushReport(flush: nat, result: BatchResult)

  datatype Entry = FlushDone(flush: nat) | CreditDone(credit: nat)

  /**
   * `inputs` and `credits` hold every flush and credit ever started, by number. A flush is in
   * `done` when it completed, is waiting when it is `flushing`, and has given up otherwise.
   * `received` and `log` are history: signals taken in, and flushes and credits applied, in order.
   */
  datatype Sys = Sys(
    config: Config,
    ledger: State,
    wf: Wf,
    flushing: Option<nat>,
    inputs: map<nat, BatchInput>,
    usageReplies: set<UsageReply>,
    reports: set<FlushReport>,
    done: set<nat>,
    credits: map<nat, CreditRequest>,
    acked: set<nat>,
    waiting: set<nat>,
    received: seq<Heartbeat>,
    log: seq<Entry>)

  datatype Event =
    | HeartbeatSignal(hb: Heartbeat)
    | RegisterSignal(cluster: Uuid)
    | IdleTimer
    | FlushStart
    | DeliverUsage(flush: nat)
    | DeliverGauge(reply: UsageReply, order: seq<Uuid>)
    | FlushComplete(result: BatchResult)
    | FlushGiveUp
    | CreditStart(resource: Resource, amount: int64)
    | DeliverCredit(credit: nat)
    | CreditComplete(credit: nat)
    | CreditFail(credit: nat)
    | DeliverInitial
    | ContinueAsNew

  // ---------------------------------------------------------------------------------------------
  // Requests
  // ---------------------------------------------------------------------------------------------

  function InitialTransfer(cfg: Config, r: Resource): Transfer
    requires r in cfg.initial
  {
    AllocationTransfer(cfg.tenant, cfg.periodStart, r, cfg.initial[r], cfg.periodStart)
  }

  /** The first allocation, for the first `n` resources. */
  function InitialRequest(cfg: Config, n: nat): seq<Transfer>
    requires n <= |AllResources|
  {
    if n == 0 then []
    else InitialRequest(cfg, n - 1)
         + if AllResources[n - 1] in cfg.initial then [InitialTransfer(cfg, AllResources[n - 1])] else []
  }

  function CreditTransfer(cfg: Config, n: nat, c: CreditRequest): Transfer {
    AllocationTransfer(cfg.tenant, n, c.resource, c.amount, 0)
  }

  function TenantAccounts(tenant: Uuid): set<Account> {
    (set r: Resource | r in AllResources :: Operator(r)) + (set r: Resource | r in AllResources :: Wallet(tenant, r))
    + (set r: Resource | r in AllResources :: Sink(r))
  }

  /** After provisioning: accounts exist, the first allocation is in, the workflow has just started. */
  ghost function Init(cfg: Config): Sys {
    Sys(cfg, Run(EmptyLedger(TenantAccounts(cfg.tenant)), InitialRequest(cfg, |AllResources|)),
        Start(StartInput(cfg.tenant, None, None, None, 0, 0)),
        None, map[], {}, {}, {}, map[], {}, {}, [], [])
  }

  // ---------------------------------------------------------------------------------------------
  // Steps
  // ---------------------------------------------------------------------------------------------

  function SignalHeartbeat(s: Sys, hb: Heartbeat): Sys {
    s.(wf := OnHeartbeat(s.wf, hb), received := s.received + [hb])
  }

  ghost function StartFlush(s: Sys): Sys {
    var n := s.wf.flushSeqNo + 1;
    s.(wf := NextNumber(s.wf), flushing := Some(n), inputs := s.inputs[n := FlushInput(s.wf, n)])
  }

  function SendUsage(s: Sys, n: nat): Sys
    requires n in s.inputs
  {
    var ts := UsageRequest(s.inputs[n]);
    var os := Outcomes(s.ledger, ts);
    s.(ledger := Run(s.ledger, ts),
       usageReplies := if AllClassifiable(os)
                       then s.usageReplies + {UsageReply(n, PerResource(ts, os))} else s.usageReplies)
  }

  function SendGauge(s: Sys, reply: UsageReply, order: seq<Uuid>): Sys
    requires reply.flush in s.inputs && KnowsClusters(s.inputs[reply.flush], order)
  {
    var input := s.inputs[reply.flush];
    var ts := GaugeRequest(input, order);
    var os := Outcomes(s.ledger, ts);
    s.(ledger := Run(s.ledger, ts),
       reports := if AllTolerated(ts, os)
                  then s.reports + {FlushReport(reply.flush, Report(input, order, reply.perResource, os))}
                  else s.reports)
  }

  ghost function CompleteFlush(s: Sys, res: BatchResult): Sys
    requires s.flushing.Some?
  {
    s.(wf := ApplyReport(s.wf, res).(interval := BASE_FLUSH_INTERVAL), flushing := None,
       done := s.done + {s.flushing.value}, log := s.log + [FlushDone(s.flushing.value)])
  }

  function GiveUpFlush(s: Sys): Sys {
    s.(wf := s.wf.(interval := BASE_FLUSH_INTERVAL), flushing := None)
  }

  function StartCredit(s: Sys, r: Resource, amount: int64): Sys {
    var n := s.wf.flushSeqNo + 1;
    s.(wf := NextNumber(s.wf), credits := s.credits[n := CreditRequest(r, ToUint64(amount))],
       waiting := s.waiting + {n})
  }

  function SendCredit(s: Sys, n: nat): Sys
    requires n in s.credits
  {
    var t := CreditTransfer(s.config, n, s.credits[n]);
    s.(ledger := Run(s.ledger, [t]),
       acked := if Classifiable(Apply(s.ledger, t).outcome) then s.acked + {n} else s.acked)
  }

  function CompleteCredit(s: Sys, n: nat): Sys
    requires n in s.credits
  {
    s.(wf := EndCredit(s.wf, s.credits[n].resource, true), waiting := s.waiting - {n}, log := s.log + [CreditDone(n)])
  }

  function FailCredit(s: Sys, n: nat): Sys
    requires n in s.credits
  {
    s.(wf := EndCredit(s.wf, s.credits[n].resource, false), waiting := s.waiting - {n})
  }

  /** A fresh run: the batch is lost, and so are the handlers of credits that are still waiting. */
  function Restart(s: Sys): Sys {
    s.(wf := Start(CarryOver(s.wf)), waiting := {})
  }

  /**
   * Signals and the timer are handled only while no flush is waiting; credits at any time.
   * Sequence numbers start at one.
   */
  ghost predicate Enabled(s: Sys, e: Event) {
    match e
    case HeartbeatSignal(hb) => s.flushing.None? && hb.seqNo >= 1
    case RegisterSignal(c) => s.flushing.None?
    case IdleTimer => s.flushing.None? && s.wf.batch == []
    case FlushStart => s.flushing.None? && s.wf.batch != []
    case DeliverUsage(n) => n in s.inputs
    case DeliverGauge(reply, order) =>
      && reply in s.usageReplies && reply.flush in s.inputs
      && IsOrder(order, Latest(s.inputs[reply.flush].heartbeats).Keys)
      && KnowsClusters(s.inputs[reply.flush], order)
    case FlushComplete(res) => s.flushing.Some? && FlushReport(s.flushing.value, res) in s.reports
    case FlushGiveUp => s.flushing.Some?
    case CreditStart(r, amount) => amount > 0
    case DeliverCredit(n) => n in s.credits
    case CreditComplete(n) => n in s.waiting && n in s.acked && n in s.credits
    case CreditFail(n) => n in s.waiting && n in s.credits
    case DeliverInitial => true
    case ContinueAsNew => s.flushing.None?
  }

  /** An event that is not enabled does nothing, so every sequence of events is a run. */
  ghost function Next(s: Sys, e: Event): Sys {
    if !Enabled(s, e) then s
    else
      match e
      case HeartbeatSignal(hb) => SignalHeartbeat(s, hb)
      case RegisterSignal(c) => s.(wf := OnRegister(s.wf, c))
      case IdleTimer => s.(wf := s.wf.(interval := IntervalAfterTimer(s.wf, false)))
      case FlushStart => StartFlush(s)
      case DeliverUsage(n) => SendUsage(s, n)
      case DeliverGauge(reply, order) => SendGauge(s, reply, order)
      case FlushComplete(res) => CompleteFlush(s, res)
      case FlushGiveUp => GiveUpFlush(s)
      case CreditStart(r, amount) => StartCredit(s, r, amount)
      case DeliverCredit(n) => SendCredit(s, n)
      case CreditComplete(n) => CompleteCredit(s, n)
      case CreditFail(n) => FailCredit(s, n)
      case DeliverInitial => s.(ledger := Run(s.ledger, InitialRequest(s.config, |AllResources|)))
      case ContinueAsNew => Restart(s)
  }

  ghost function Exec(s: Sys, es: seq<Event>): Sys {
    if es == [] then s else Next(Exec(s, es[..|es| - 1]), es[|es| - 1])
  }
}
