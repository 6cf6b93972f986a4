/** What a batch of heartbeats is charged: the heartbeats take their turns, in the order of the batch. */
module Charging {
  import opened Domain
  import opened TransferIds
  import opened Ledger
  import opened Transfers
  import opened Activities

  /** What a heartbeat uses of a cumulative resource, as the ledger's unsigned amount. */
  function Used(hb: Heartbeat, r: Resource): nat {
    match r
    case CpuHours => ToUint64(hb.cpuMilliseconds)
    case MemoryGBHours => ToUint64(hb.memoryMBSeconds)
    case ActiveNodes => 0
  }

  /** Some heartbeat with this cluster and number uses the resource. */
  predicate Uses(hbs: seq<Heartbeat>, c: Uuid, q: nat, r: Resource) {
    exists hb :: hb in hbs && hb.cluster == c && hb.seqNo == q && Used(hb, r) > 0
  }

  predicate Known(l: State, id: TransferId) {
    id in l.transfers || id in l.failed
  }

  /** The heartbeat uses the resource, and nobody did under its key before. */
  predicate IsNew(l: State, earlier: seq<Heartbeat>, hb: Heartbeat, r: Resource) {
    Used(hb, r) > 0 && !Known(l, UsageId(hb.cluster, hb.seqNo, r)) && !Uses(earlier, hb.cluster, hb.seqNo, r)
  }

  predicate FitsAfter(l: State, w: Account, debits: int, amount: nat)
    requires w in l.accounts
  {
    debits + amount + l.accounts[w].debitsPending <= l.accounts[w].creditsPosted
  }

  /** What the wallet is charged after the heartbeats: each new key takes its amount if that fits what is left. */
  function Charged(l: State, tenant: Uuid, r: Resource, hbs: seq<Heartbeat>): int
    requires Wallet(tenant, r) in l.accounts
  {
    if hbs == [] then l.accounts[Wallet(tenant, r)].debitsPosted
    else
      var zs, z := hbs[..|hbs| - 1], hbs[|hbs| - 1];
      var debits := Charged(l, tenant, r, zs);
      if IsNew(l, zs, z, r) && FitsAfter(l, Wallet(tenant, r), debits, Used(z, r)) then debits + Used(z, r) else debits
  }

  /** Whether the last heartbeat that uses the resource found no room; none if no heartbeat does. */
  function LastRefused(l: State, tenant: Uuid, r: Resource, hbs: seq<Heartbeat>): Option<bool>
    requires Wallet(tenant, r) in l.accounts
  {
    if hbs == [] then None
    else
      var zs, z := hbs[..|hbs| - 1], hbs[|hbs| - 1];
      if Used(z, r) == 0 then LastRefused(l, tenant, r, zs)
      else
        Some(IsNew(l, zs, z, r)
             && !FitsAfter(l, Wallet(tenant, r), Charged(l, tenant, r, zs), Used(z, r)))
  }

  // ---------------------------------------------------------------------------------------------
  // The charges of one resource
  // ---------------------------------------------------------------------------------------------

  lemma {:induction false} UsedIsBilled(tenant: Uuid, hb: Heartbeat, r: Resource)
    requires !r.IsGauge()
    ensures Billed(hb, r) <==> Used(hb, r) > 0
    ensures UsageTransfer(tenant, hb, r).amount == Used(hb, r)
  {
  }

  function ChargePart(tenant: Uuid, hb: Heartbeat, r: Resource): seq<Transfer> {
    if Used(hb, r) > 0 then [UsageTransfer(tenant, hb, r)] else []
  }

  /** A resource's charges, in the order of the heartbeats. */
  function ChargesFor(tenant: Uuid, r: Resource, hbs: seq<Heartbeat>): seq<Transfer> {
    if hbs == [] then []
    else ChargesFor(tenant, r, hbs[..|hbs| - 1]) + ChargePart(tenant, hbs[|hbs| - 1], r)
  }

  lemma {:induction false} OnLedgerOfPart(tenant: Uuid, hb: Heartbeat, q: Resource, r: Resource)
    ensures OnLedger(ChargePart(tenant, hb, q), r) == if q == r then ChargePart(tenant, hb, q) else []
  {
    var t := UsageTransfer(tenant, hb, q);
    assert [t][..0] == [] && OnLedger([], r) == [];
  }

  lemma {:induction false} OnLedgerConcat(xs: seq<Transfer>, ys: seq<Transfer>, r: Resource)
    ensures OnLedger(xs + ys, r) == OnLedger(xs, r) + OnLedger(ys, r)
    decreases |ys|
  {
    if ys == [] {
      assert xs + ys == xs;
    } else {
      OnLedgerConcat(xs, ys[..|ys| - 1], r);
      assert (xs + ys)[..|xs + ys| - 1] == xs + ys[..|ys| - 1];
    }
  }

  lemma {:induction false} UsageOfParts(tenant: Uuid, hb: Heartbeat)
    ensures UsageOf(tenant, hb, |AllResources|) ==
            ChargePart(tenant, hb, CpuHours) + ChargePart(tenant, hb, MemoryGBHours)
  {
    UsedIsBilled(tenant, hb, CpuHours);
    UsedIsBilled(tenant, hb, MemoryGBHours);
    assert UsageOf(tenant, hb, 0) == [];
    assert UsageOf(tenant, hb, 1) == ChargePart(tenant, hb, CpuHours);
    assert UsageOf(tenant, hb, 2) == UsageOf(tenant, hb, 1) + ChargePart(tenant, hb, MemoryGBHours);
    assert UsageOf(tenant, hb, 3) == UsageOf(tenant, hb, 2);
  }

  lemma {:induction false} UsageOfOnLedger(tenant: Uuid, hb: Heartbeat, r: Resource)
    requires !r.IsGauge()
    ensures OnLedger(UsageOf(tenant, hb, |AllResources|), r) == ChargePart(tenant, hb, r)
  {
    UsageOfParts(tenant, hb);
    OnLedgerConcat(ChargePart(tenant, hb, CpuHours), ChargePart(tenant, hb, MemoryGBHours), r);
    OnLedgerOfPart(tenant, hb, CpuHours, r);
    OnLedgerOfPart(tenant, hb, MemoryGBHours, r);
  }

  /** On its own ledger, a resource sees its charges in the order of the heartbeats. */
  lemma {:induction false} UsageOnLedger(tenant: Uuid, r: Resource, hbs: seq<Heartbeat>)
    requires !r.IsGauge()
    ensures OnLedger(UsageBatch(tenant, hbs), r) == ChargesFor(tenant, r, hbs)
    decreases |hbs|
  {
    if hbs != [] {
      var zs, z := hbs[..|hbs| - 1], hbs[|hbs| - 1];
      UsageOnLedger(tenant, r, zs);
      OnLedgerConcat(UsageBatch(tenant, zs), UsageOf(tenant, z, |AllResources|), r);
      UsageOfOnLedger(tenant, z, r);
    }
  }

  lemma {:induction false} UsageOnOneLedger(tenant: Uuid, hbs: seq<Heartbeat>, t: Transfer)
    requires t in UsageBatch(tenant, hbs)
    ensures OnOneLedger(t)
  {
    UsageBatchMembers(tenant, hbs, t);
  }

  // ---------------------------------------------------------------------------------------------
  // The fold is what the ledger does
  // ---------------------------------------------------------------------------------------------

  /** `k` is `l` after the resource's charges for these heartbeats. */
  ghost predicate Walked(l: State, k: State, tenant: Uuid, r: Resource, hbs: seq<Heartbeat>)
    requires Wallet(tenant, r) in l.accounts
  {
    var w := Wallet(tenant, r);
    && w in k.accounts && Sink(r) in k.accounts
    && k.accounts[w].creditsPosted == l.accounts[w].creditsPosted
    && k.accounts[w].debitsPending == l.accounts[w].debitsPending
    && k.accounts[w].debitsPosted == Charged(l, tenant, r, hbs)
    && forall c, q :: Known(k, UsageId(c, q, r)) <==> Known(l, UsageId(c, q, r)) || Uses(hbs, c, q, r)
  }

  lemma {:induction false} UsesSnoc(zs: seq<Heartbeat>, z: Heartbeat, c: Uuid, q: nat, r: Resource)
    ensures Uses(zs + [z], c, q, r) <==> Uses(zs, c, q, r) || (z.cluster == c && z.seqNo == q && Used(z, r) > 0)
  {
    if Uses(zs, c, q, r) {
      var hb :| hb in zs && hb.cluster == c && hb.seqNo == q && Used(hb, r) > 0;
      assert hb in zs + [z];
    }
    assert z in zs + [z];
  }

  /** One charge, on a ledger that knows its accounts. */
  lemma {:induction false} OneCharge(k: State, tenant: Uuid, z: Heartbeat, r: Resource)
    requires Wallet(tenant, r) in k.accounts && Sink(r) in k.accounts && !r.IsGauge() && Used(z, r) > 0
    ensures var t, w := UsageTransfer(tenant, z, r), Wallet(tenant, r);
            var k', x, b := Apply(k, t).state, Apply(k, t).outcome, k.accounts[w];
            var takes := !Known(k, t.id) && FitsAfter(k, w, b.debitsPosted, Used(z, r));
            && w in k'.accounts && Sink(r) in k'.accounts
            && k'.accounts[w] == (if takes then b.(debitsPosted := b.debitsPosted + Used(z, r)) else b)
            && (forall id :: Known(k', id) <==> Known(k, id) || id == t.id)
            && (x.ExceedsCredits? <==> !Known(k, t.id) && !takes)
  {
    UsedIsBilled(tenant, z, r);
  }

  lemma {:induction false} WalkStep(l: State, k: State, k': State, tenant: Uuid, r: Resource, hbs: seq<Heartbeat>)
    requires Wallet(tenant, r) in l.accounts && hbs != [] && !r.IsGauge()
    requires Walked(l, k, tenant, r, hbs[..|hbs| - 1])
    requires var z := hbs[|hbs| - 1];
             k' == if Used(z, r) > 0 then Apply(k, UsageTransfer(tenant, z, r)).state else k
    ensures Walked(l, k', tenant, r, hbs)
  {
    var zs, z := hbs[..|hbs| - 1], hbs[|hbs| - 1];
    assert hbs == zs + [z];
    forall c, q
      ensures Uses(hbs, c, q, r) <==> Uses(zs, c, q, r) || (z.cluster == c && z.seqNo == q && Used(z, r) > 0)
    {
      UsesSnoc(zs, z, c, q, r);
    }
    if Used(z, r) > 0 {
      OneCharge(k, tenant, z, r);
    }
  }

  lemma {:induction false} RunPart(l: State, ts: seq<Transfer>, tenant: Uuid, z: Heartbeat, r: Resource)
    ensures Run(l, ts + ChargePart(tenant, z, r)) ==
            if Used(z, r) > 0 then Apply(Run(l, ts), UsageTransfer(tenant, z, r)).state else Run(l, ts)
  {
    if Used(z, r) > 0 {
      RunSnoc(l, ts, UsageTransfer(tenant, z, r));
    } else {
      assert ts + [] == ts;
    }
  }

  lemma {:induction false} WalkCharges(l: State, tenant: Uuid, r: Resource, hbs: seq<Heartbeat>)
    requires Wallet(tenant, r) in l.accounts && Sink(r) in l.accounts && !r.IsGauge()
    ensures Walked(l, Run(l, ChargesFor(tenant, r, hbs)), tenant, r, hbs)
    decreases |hbs|
  {
    if hbs != [] {
      var zs, z := hbs[..|hbs| - 1], hbs[|hbs| - 1];
      WalkCharges(l, tenant, r, zs);
      RunPart(l, ChargesFor(tenant, r, zs), tenant, z, r);
      WalkStep(l, Run(l, ChargesFor(tenant, r, zs)), Run(l, ChargesFor(tenant, r, hbs)), tenant, r, hbs);
    }
  }

  lemma {:induction false} ProjectedFold(l: State, tenant: Uuid, r: Resource, hbs: seq<Heartbeat>)
    requires Wallet(tenant, r) in l.accounts
    ensures Wallet(tenant, r) in Project(l, r).accounts
    ensures Charged(Project(l, r), tenant, r, hbs) == Charged(l, tenant, r, hbs)
    ensures LastRefused(Project(l, r), tenant, r, hbs) == LastRefused(l, tenant, r, hbs)
    decreases |hbs|
  {
    var p, w := Project(l, r), Wallet(tenant, r);
    assert w in p.accounts && p.accounts[w] == l.accounts[w];
    if hbs != [] {
      var zs, z := hbs[..|hbs| - 1], hbs[|hbs| - 1];
      ProjectedFold(l, tenant, r, zs);
      var id := UsageId(z.cluster, z.seqNo, r);
      assert Known(p, id) <==> Known(l, id);
    }
  }

  /** What the wallet was charged after a usage request is the fold over its heartbeats. */
  lemma {:induction false} ChargedInOrder(l: State, tenant: Uuid, r: Resource, hbs: seq<Heartbeat>)
    requires Valid(l) && Wallet(tenant, r) in l.accounts && Sink(r) in l.accounts && !r.IsGauge()
    ensures var k, w := Run(l, UsageBatch(tenant, hbs)), Wallet(tenant, r);
            w in k.accounts && k.accounts[w].debitsPosted == Charged(l, tenant, r, hbs)
  {
    var k, w, p := Run(l, UsageBatch(tenant, hbs)), Wallet(tenant, r), Project(l, r);
    forall t | t in UsageBatch(tenant, hbs) ensures OnOneLedger(t) {
      UsageOnOneLedger(tenant, hbs, t);
    }
    ResourcesDoNotInterfere(l, UsageBatch(tenant, hbs), r);
    UsageOnLedger(tenant, r, hbs);
    assert Sink(r) in p.accounts;
    ProjectedFold(l, tenant, r, hbs);
    WalkCharges(p, tenant, r, hbs);
    assert w in Project(k, r).accounts;
  }

  // ---------------------------------------------------------------------------------------------
  // The reported result
  // ---------------------------------------------------------------------------------------------

  predicate SameEntry(a: map<Resource, TransferResult>, b: map<Resource, TransferResult>, r: Resource) {
    (r in a <==> r in b) && (r in a ==> a[r] == b[r])
  }

  /** A resource's reported result is the one it would have got alone. */
  lemma {:induction false} ResultOnLedger(l: State, ts: seq<Transfer>, r: Resource)
    requires Valid(l) && forall t :: t in ts ==> OnOneLedger(t)
    ensures SameEntry(PerResource(ts, Outcomes(l, ts)),
                      PerResource(OnLedger(ts, r), Outcomes(Project(l, r), OnLedger(ts, r))), r)
    decreases |ts|
  {
    if ts != [] {
      var zs, z := ts[..|ts| - 1], ts[|ts| - 1];
      ResultOnLedger(l, zs, r);
      assert Outcomes(l, ts)[..|zs|] == Outcomes(l, zs);
      if z.id.ledger == r {
        ResourcesDoNotInterfere(l, zs, r);
        RunValid(l, zs);
        ApplyHere(Run(l, zs), z, r);
        ResultSnoc(Project(l, r), OnLedger(zs, r), z);
      }
    }
  }

  lemma {:induction false} ResultSnoc(l: State, ts: seq<Transfer>, t: Transfer)
    ensures PerResource(ts + [t], Outcomes(l, ts + [t])) ==
            PerResource(ts, Outcomes(l, ts))[t.id.ledger := Classify(Apply(Run(l, ts), t).outcome)]
  {
    assert (ts + [t])[..|ts|] == ts;
    assert Outcomes(l, ts + [t])[..|ts|] == Outcomes(l, ts);
  }

  lemma {:induction false} ResultOfCharges(l: State, tenant: Uuid, r: Resource, hbs: seq<Heartbeat>)
    requires Wallet(tenant, r) in l.accounts && Sink(r) in l.accounts && !r.IsGauge()
    ensures var ts := ChargesFor(tenant, r, hbs);
            var per, last := PerResource(ts, Outcomes(l, ts)), LastRefused(l, tenant, r, hbs);
            (r in per <==> last.Some?) && (r in per ==> per[r].exceedsCredits == last.value)
    decreases |hbs|
  {
    if hbs != [] {
      var zs, z := hbs[..|hbs| - 1], hbs[|hbs| - 1];
      var ts := ChargesFor(tenant, r, zs);
      ResultOfCharges(l, tenant, r, zs);
      WalkCharges(l, tenant, r, zs);
      if Used(z, r) > 0 {
        OneCharge(Run(l, ts), tenant, z, r);
        ResultSnoc(l, ts, UsageTransfer(tenant, z, r));
      } else {
        assert ts + [] == ts;
      }
    }
  }

  /** The request reports a resource exactly when some heartbeat uses it, and then as its last use went. */
  lemma {:induction false} ReportsLastUse(l: State, tenant: Uuid, r: Resource, hbs: seq<Heartbeat>)
    requires Valid(l) && Wallet(tenant, r) in l.accounts && Sink(r) in l.accounts && !r.IsGauge()
    ensures var ts := UsageBatch(tenant, hbs);
            var per, last := PerResource(ts, Outcomes(l, ts)), LastRefused(l, tenant, r, hbs);
            (r in per <==> last.Some?) && (r in per ==> per[r].exceedsCredits == last.value)
  {
    forall t | t in UsageBatch(tenant, hbs) ensures OnOneLedger(t) {
      UsageOnOneLedger(tenant, hbs, t);
    }
    ResultOnLedger(l, UsageBatch(tenant, hbs), r);
    UsageOnLedger(tenant, r, hbs);
    assert Sink(r) in Project(l, r).accounts;
    ProjectedFold(l, tenant, r, hbs);
    ResultOfCharges(Project(l, r), tenant, r, hbs);
  }
}
