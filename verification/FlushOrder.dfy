/** What the order of clusters means for a flush of the running protocol. */
module FlushOrder {
  import opened Domain
  import opened Ledger
  import opened Transfers
  import opened Activities
  import opened Workflow
  import opened Protocol
  import opened Invariant
  import opened Preservation
  import opened Guarantees
  import opened Attempts
  import opened History
  import opened GaugeFlag
  import G = GaugeOrder

  /** All gauge updates of flush `n`, one per cluster. */
  ghost function Updates(input: BatchInput): set<GaugeUpdate>
    requires Complete(input)
  {
    set c | c in Latest(input.heartbeats) :: UpdateFor(input, c)
  }

  predicate Complete(input: BatchInput) {
    forall c :: c in Latest(input.heartbeats) ==> c in input.newPendingIds && c in input.voidIds
  }

  /** Nothing of flush `n`'s gauge request is on the ledger, and what it replaces is still open. */
  ghost predicate Untouched(s: Sys, n: nat)
    requires n in s.inputs
  {
    forall c :: c in Latest(s.inputs[n].heartbeats) ==>
      && Pid(s.config.tenant, n, c) !in s.ledger.transfers && Pid(s.config.tenant, n, c) !in s.ledger.failed
      && Vid(s.config.tenant, n, c) !in s.ledger.transfers && Vid(s.config.tenant, n, c) !in s.ledger.failed
      && (c in s.inputs[n].pendingGauge ==> s.inputs[n].pendingGauge[c] !in s.ledger.voidedBy)
  }

  lemma {:induction false} ShapedIsComplete(cfg: Config, n: nat, input: BatchInput)
    requires Shaped(cfg, n, input)
    ensures Complete(input)
  {
    LatestIsHighest(input.heartbeats);
  }

  lemma {:induction false} UpdateIsFresh(s: Sys, n: nat, c: Uuid)
    requires Numbered(s) && Booked(s) && Tracks(s) && n in s.inputs && Untouched(s, n) && Complete(s.inputs[n])
    requires c in Latest(s.inputs[n].heartbeats)
    ensures G.Fresh(s.ledger, s.config.tenant, UpdateFor(s.inputs[n], c))
  {
    var input := s.inputs[n];
    UpdateParts(s.config, n, input, c);
    if c in input.pendingGauge {
      var id := input.pendingGauge[c];
      assert TracksAll(s.config, s.inputs, s.done, s.ledger, input.pendingGauge, n);
      assert TracksOne(s.config, s.inputs, s.done, s.ledger, c, id, n);
      assert Genuine(s.config, s.inputs, s.credits, s.ledger.transfers[id]);
    }
  }

  lemma {:induction false} UpdatesOwnTheirIds(cfg: Config, n: nat, input: BatchInput, c: Uuid, d: Uuid)
    requires Shaped(cfg, n, input) && Complete(input) && c != d
    requires c in Latest(input.heartbeats) && d in Latest(input.heartbeats)
    ensures OwnIds(UpdateFor(input, c), UpdateFor(input, d))
  {
    UpdateParts(cfg, n, input, c);
    UpdateParts(cfg, n, input, d);
  }

  lemma {:induction false} UpdatesAreApart(s: Sys, n: nat, c: Uuid, d: Uuid)
    requires Numbered(s) && Tracks(s) && n in s.inputs && Complete(s.inputs[n]) && c != d
    requires c in Latest(s.inputs[n].heartbeats) && d in Latest(s.inputs[n].heartbeats)
    ensures G.Apart(UpdateFor(s.inputs[n], c), UpdateFor(s.inputs[n], d))
  {
    var input := s.inputs[n];
    UpdatesOwnTheirIds(s.config, n, input, c, d);
    assert TracksAll(s.config, s.inputs, s.done, s.ledger, input.pendingGauge, n);
    if c in input.pendingGauge && d in input.pendingGauge {
      assert TracksOne(s.config, s.inputs, s.done, s.ledger, c, input.pendingGauge[c], n);
      assert TracksOne(s.config, s.inputs, s.done, s.ledger, d, input.pendingGauge[d], n);
    }
  }

  lemma {:induction false} FlushIsReady(s: Sys, n: nat)
    requires Inv(s) && n in s.inputs && Untouched(s, n)
    ensures Complete(s.inputs[n]) && G.Ready(s.ledger, s.config.tenant, Updates(s.inputs[n]))
  {
    var input := s.inputs[n];
    ShapedIsComplete(s.config, n, input);
    WalletExists(s, ActiveNodes);
    EveryResource(ActiveNodes);
    var us := Updates(input);
    forall u | u in us ensures G.Fresh(s.ledger, s.config.tenant, u) {
      var c :| c in Latest(input.heartbeats) && u == UpdateFor(input, c);
      UpdateIsFresh(s, n, c);
    }
    forall u, v | u in us && v in us && u != v ensures G.Apart(u, v) {
      var c :| c in Latest(input.heartbeats) && u == UpdateFor(input, c);
      var d :| d in Latest(input.heartbeats) && v == UpdateFor(input, d);
      UpdatesAreApart(s, n, c, d);
    }
  }

  /** An order of the clusters is an order of the updates. */
  lemma {:induction false} OrderEnumerates(cfg: Config, n: nat, input: BatchInput, o: seq<Uuid>)
    requires Shaped(cfg, n, input) && Complete(input) && IsOrder(o, Latest(input.heartbeats).Keys)
    requires KnowsClusters(input, o)
    ensures G.IsEnumeration(GaugeUpdates(input, o), Updates(input))
  {
    var ps := GaugeUpdates(input, o);
    forall i | 0 <= i < |o| ensures ps[i].cluster == o[i] {
      UpdateParts(cfg, n, input, o[i]);
    }
    forall u | u in Updates(input) ensures u in ps {
      var c :| c in Latest(input.heartbeats) && u == UpdateFor(input, c);
      var i :| 0 <= i < |o| && o[i] == c;
      assert ps[i] == u;
    }
    forall u | u in ps ensures u in Updates(input) {
      var i :| 0 <= i < |ps| && ps[i] == u;
      assert u == UpdateFor(input, o[i]);
    }
  }

  /** And every order of the updates comes from one of the clusters. */
  lemma {:induction false} EnumerationIsOrder(cfg: Config, n: nat, input: BatchInput, ps: seq<GaugeUpdate>)
    returns (o: seq<Uuid>)
    requires Shaped(cfg, n, input) && Complete(input) && G.IsEnumeration(ps, Updates(input))
    ensures IsOrder(o, Latest(input.heartbeats).Keys) && KnowsClusters(input, o) && GaugeUpdates(input, o) == ps
  {
    o := seq(|ps|, i requires 0 <= i < |ps| => ps[i].cluster);
    forall i | 0 <= i < |ps| ensures o[i] in Latest(input.heartbeats) && ps[i] == UpdateFor(input, o[i]) {
      assert ps[i] in Updates(input);
      var c :| c in Latest(input.heartbeats) && ps[i] == UpdateFor(input, c);
      UpdateParts(cfg, n, input, c);
    }
    forall c | c in Latest(input.heartbeats).Keys ensures c in o {
      assert UpdateFor(input, c) in ps;
      var i :| 0 <= i < |ps| && ps[i] == UpdateFor(input, c);
      UpdateParts(cfg, n, input, c);
      assert o[i] == c;
    }
  }

  /** An order in which the iteration over a flush's clusters may go. */
  ghost predicate IsIteration(input: BatchInput, o: seq<Uuid>) {
    IsOrder(o, Latest(input.heartbeats).Keys) && KnowsClusters(input, o)
  }

  /** Whatever order the map iteration takes, the flush's gauge request is accepted in full. */
  ghost predicate AnyIterationAccepts(s: Sys, input: BatchInput) {
    forall o | IsIteration(input, o) :: G.AcceptsAll(s.ledger, GaugeUpdates(input, o))
  }

  lemma {:induction false} IterationsAreOrders(s: Sys, n: nat, input: BatchInput)
    requires Shaped(s.config, n, input) && Complete(input)
    ensures AnyIterationAccepts(s, input) <==> G.EveryOrderAccepts(s.ledger, Updates(input))
  {
    if G.EveryOrderAccepts(s.ledger, Updates(input)) {
      forall o | IsIteration(input, o)
        ensures G.AcceptsAll(s.ledger, GaugeUpdates(input, o))
      {
        OrderEnumerates(s.config, n, input, o);
      }
    }
    if AnyIterationAccepts(s, input) {
      forall ps | G.IsEnumeration(ps, Updates(input)) ensures G.AcceptsAll(s.ledger, ps) {
        var o := EnumerationIsOrder(s.config, n, input, ps);
        assert G.AcceptsAll(s.ledger, GaugeUpdates(input, o));
      }
    }
  }

  /**
   * For a flush of any reached state whose gauge request has not reached the ledger: every
   * iteration order gets all its updates accepted exactly when the wallet has room for all
   * increases at once, and then all orders leave the same ledger.
   */
  lemma {:induction false} IterationOrderIsHarmlessIff(cfg: Config, es: seq<Event>, n: nat, o: seq<Uuid>, p: seq<Uuid>)
    requires n in Exec(Init(cfg), es).inputs && Untouched(Exec(Init(cfg), es), n)
    ensures var s := Exec(Init(cfg), es);
            var input := s.inputs[n];
            && Complete(input)
            && WalletOf(s, ActiveNodes) in s.ledger.accounts
            && (AnyIterationAccepts(s, input) <==> G.RoomForAllIncreases(s.ledger, s.config.tenant, Updates(input)))
            && (AnyIterationAccepts(s, input) && IsIteration(input, o) && IsIteration(input, p) ==>
                  Run(s.ledger, GaugeRequest(input, o)) == Run(s.ledger, GaugeRequest(input, p)))
  {
    var s := Exec(Init(cfg), es);
    var input, tenant := s.inputs[n], s.config.tenant;
    assert Shaped(s.config, n, input) && Complete(input) && G.Ready(s.ledger, tenant, Updates(input)) by {
      ExecInv(cfg, es);
      FlushIsReady(s, n);
    }
    IterationsAreOrders(s, n, input);
    G.EveryOrderAcceptsIffRoom(s.ledger, tenant, Updates(input));
    if AnyIterationAccepts(s, input) && IsIteration(input, o) && IsIteration(input, p) {
      OrderEnumerates(s.config, n, input, o);
      OrderEnumerates(s.config, n, input, p);
      G.OrderLeavesNoTrace(s.ledger, tenant, Updates(input), GaugeUpdates(input, o), GaugeUpdates(input, p));
    }
  }

  // ---------------------------------------------------------------------------------------------
  // The gauge's flag and the order
  // ---------------------------------------------------------------------------------------------

  /** The gauge's flag when the flush's report, from a request sent in this order, is applied. */
  ghost predicate FlagAfter(s: Sys, input: BatchInput, per: map<Resource, TransferResult>, o: seq<Uuid>)
    requires KnowsClusters(input, o)
  {
    var os := Outcomes(s.ledger, GaugeRequest(input, o));
    ActiveNodes in ExceededAfter(s.wf.exceeded, Report(input, o, per, os).perResource)
  }

  /** The cluster that comes last in the order fits what the others leave: a matter of amounts alone. */
  ghost predicate LastClusterFits(s: Sys, input: BatchInput, o: seq<Uuid>)
    requires KnowsClusters(input, o) && o != [] && WalletOf(s, ActiveNodes) in s.ledger.accounts
  {
    LastFits(s.ledger, s.config.tenant, GaugeUpdates(input, o))
  }

  lemma {:induction false} ReportFlags(exceeded: set<Resource>, input: BatchInput, per: map<Resource, TransferResult>,
      o: seq<Uuid>, os: seq<Outcome>)
    requires KnowsClusters(input, o) && o != [] && |os| == |GaugeRequest(input, o)|
    ensures ActiveNodes in ExceededAfter(exceeded, Report(input, o, per, os).perResource)
            <==> GaugeResultAt(GaugeUpdates(input, o), os, |o| - 1).exceedsCredits
  {
    ReportedGaugeEntry(input, o, per, os);
  }

  lemma {:induction false} EnumeratedLastRefusedIff(l: State, tenant: Uuid, us: set<GaugeUpdate>, ps: seq<GaugeUpdate>)
    requires G.Ready(l, tenant, us) && G.IsEnumeration(ps, us) && ps != []
    ensures GaugeResultAt(ps, Outcomes(l, GaugeBatch(ps)), |ps| - 1).exceedsCredits <==> !LastFits(l, tenant, ps)
  {
    assert G.Elements(ps) == us;
    LastRefusedIff(l, tenant, us, ps);
  }

  lemma {:induction false} FlagIffLastRefused(s: Sys, n: nat, per: map<Resource, TransferResult>, o: seq<Uuid>)
    requires Inv(s) && n in s.inputs && Untouched(s, n) && KnowsClusters(s.inputs[n], o) && o != []
    requires IsOrder(o, Latest(s.inputs[n].heartbeats).Keys)
    ensures WalletOf(s, ActiveNodes) in s.ledger.accounts
    ensures FlagAfter(s, s.inputs[n], per, o) <==> !LastClusterFits(s, s.inputs[n], o)
  {
    var input := s.inputs[n];
    FlushIsReady(s, n);
    OrderEnumerates(s.config, n, input, o);
    EnumeratedLastRefusedIff(s.ledger, s.config.tenant, Updates(input), GaugeUpdates(input, o));
    ReportFlags(s.wf.exceeded, input, per, o, Outcomes(s.ledger, GaugeRequest(input, o)));
  }

  /** A started flush has clusters, so its orders are not empty. */
  lemma {:induction false} OrdersAreNotEmpty(cfg: Config, es: seq<Event>, n: nat, o: seq<Uuid>)
    requires n in Exec(Init(cfg), es).inputs && IsOrder(o, Latest(Exec(Init(cfg), es).inputs[n].heartbeats).Keys)
    ensures o != []
  {
    var hbs := Exec(Init(cfg), es).inputs[n].heartbeats;
    ExecGaugeFlagged(cfg, es);
    LatestIsHighest(hbs);
    assert hbs[0] in hbs;
    assert hbs[0].cluster in Latest(hbs).Keys;
  }

  /**
   * A waiting flush whose gauge request is sent for the first time, in any order of clusters: it
   * is answered, and when that answer is applied the gauge is flagged exactly when the cluster
   * that came last did not fit what the others left.
   */
  lemma {:induction false} FlaggedIffLastDoesNotFit(cfg: Config, es: seq<Event>, reply: UsageReply, o: seq<Uuid>)
    requires var s := Exec(Init(cfg), es);
             s.flushing == Some(reply.flush) && Enabled(s, DeliverGauge(reply, o)) && Untouched(s, reply.flush)
    ensures var s := Exec(Init(cfg), es);
            var input := s.inputs[reply.flush];
            var res := Report(input, o, reply.perResource, Outcomes(s.ledger, GaugeRequest(input, o)));
            var s1 := Next(s, DeliverGauge(reply, o));
            && Enabled(s1, FlushComplete(res))
            && o != [] && WalletOf(s, ActiveNodes) in s.ledger.accounts
            && (ActiveNodes in Next(s1, FlushComplete(res)).wf.exceeded <==> !LastClusterFits(s, input, o))
  {
    var s, n := Exec(Init(cfg), es), reply.flush;
    ExecInv(cfg, es);
    OrdersAreNotEmpty(cfg, es, n, o);
    UntouchedIsTolerated(s, n, o);
    FlagIffLastRefused(s, n, reply.perResource, o);
  }

  lemma {:induction false} UntouchedIsTolerated(s: Sys, n: nat, o: seq<Uuid>)
    requires Inv(s) && n in s.inputs && Untouched(s, n) && KnowsClusters(s.inputs[n], o)
    requires IsOrder(o, Latest(s.inputs[n].heartbeats).Keys)
    ensures AllTolerated(GaugeRequest(s.inputs[n], o), Outcomes(s.ledger, GaugeRequest(s.inputs[n], o)))
  {
    forall t | t in GaugeRequest(s.inputs[n], o) ensures t.id !in s.ledger.failed {
      GaugeTransferShape(s, n, o, t);
      GaugeIdsCarryNumber(s, n, o, t);
    }
    GaugeToleratedIff(s, n, o);
  }

  /** Whatever order the map iteration takes, the flag comes out the same. */
  ghost predicate FlagIgnoresOrder(s: Sys, input: BatchInput, per: map<Resource, TransferResult>) {
    forall o, p | IsIteration(input, o) && IsIteration(input, p) ::
      FlagAfter(s, input, per, o) == FlagAfter(s, input, per, p)
  }

  /**
   * For a flush of any reached state whose gauge request has not reached the ledger: the order
   * does not decide the gauge's flag exactly when the last cluster fits in every order or in none.
   */
  lemma {:induction false} FlagIgnoresOrderIff(cfg: Config, es: seq<Event>, n: nat, per: map<Resource, TransferResult>)
    requires n in Exec(Init(cfg), es).inputs && Untouched(Exec(Init(cfg), es), n)
    ensures var s := Exec(Init(cfg), es);
            var input := s.inputs[n];
            && WalletOf(s, ActiveNodes) in s.ledger.accounts
            && (forall o | IsIteration(input, o) :: o != [])
            && (FlagIgnoresOrder(s, input, per) <==>
                || (forall o | IsIteration(input, o) :: LastClusterFits(s, input, o))
                || (forall o | IsIteration(input, o) :: !LastClusterFits(s, input, o)))
  {
    var s := Exec(Init(cfg), es);
    var input := s.inputs[n];
    ExecInv(cfg, es);
    WalletExists(s, ActiveNodes);
    forall o | IsIteration(input, o)
      ensures o != [] && (FlagAfter(s, input, per, o) <==> !LastClusterFits(s, input, o))
    {
      OrdersAreNotEmpty(cfg, es, n, o);
      FlagIffLastRefused(s, n, per, o);
    }
  }

  /** When the new total fits, no order flags the gauge, even where some order refuses a cluster. */
  lemma {:induction false} NewTotalFitsNeverFlags(cfg: Config, es: seq<Event>, n: nat,
      per: map<Resource, TransferResult>, o: seq<Uuid>)
    requires n in Exec(Init(cfg), es).inputs && Untouched(Exec(Init(cfg), es), n)
    requires IsIteration(Exec(Init(cfg), es).inputs[n], o)
    ensures var s := Exec(Init(cfg), es);
            && Complete(s.inputs[n]) && WalletOf(s, ActiveNodes) in s.ledger.accounts
            && (NewTotalFits(s.ledger, s.config.tenant, Updates(s.inputs[n])) ==> !FlagAfter(s, s.inputs[n], per, o))
  {
    var s := Exec(Init(cfg), es);
    ExecInv(cfg, es);
    FlushIsReady(s, n);
    OrdersAreNotEmpty(cfg, es, n, o);
    FlagIffLastRefused(s, n, per, o);
    OrderEnumerates(s.config, n, s.inputs[n], o);
    if NewTotalFits(s.ledger, s.config.tenant, Updates(s.inputs[n])) {
      NewTotalFitsLast(s.ledger, s.config.tenant, Updates(s.inputs[n]), GaugeUpdates(s.inputs[n], o));
    }
  }

  lemma {:induction false} AcceptedTotalFits(s: Sys, n: nat, o: seq<Uuid>)
    requires Inv(s) && n in s.inputs && Untouched(s, n) && IsIteration(s.inputs[n], o)
    ensures Complete(s.inputs[n]) && WalletOf(s, ActiveNodes) in s.ledger.accounts
    ensures G.AcceptsAll(s.ledger, GaugeUpdates(s.inputs[n], o)) ==>
              NewTotalFits(s.ledger, s.config.tenant, Updates(s.inputs[n]))
  {
    FlushIsReady(s, n);
    OrderEnumerates(s.config, n, s.inputs[n], o);
    if G.AcceptsAll(s.ledger, GaugeUpdates(s.inputs[n], o)) {
      AcceptedOrderFits(s.ledger, s.config.tenant, Updates(s.inputs[n]), GaugeUpdates(s.inputs[n], o));
    }
  }
}
