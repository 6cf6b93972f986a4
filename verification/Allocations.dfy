/** Credits for several resources go out in one request, in whatever order a map iteration gives. */
module Allocations {
  import opened Domain
  import opened TransferIds
  import opened Ledger
  import opened Transfers
  import opened Activities
  import opened Protocol
  import opened Preservation

  lemma {:induction false} AllocationSnoc(tenant: Uuid, n: nat, amounts: map<Resource, nat>, period: nat,
      o: seq<Resource>)
    requires o != [] && forall i :: 0 <= i < |o| ==> o[i] in amounts
    ensures var zs, z := o[..|o| - 1], o[|o| - 1];
            AllocationRequest(tenant, n, amounts, period, o) ==
            AllocationRequest(tenant, n, amounts, period, zs) + [AllocationTransfer(tenant, n, z, amounts[z], period)]
  {
  }

  lemma {:induction false} OnLedgerSnoc(ts: seq<Transfer>, t: Transfer, r: Resource)
    ensures OnLedger(ts + [t], r) == OnLedger(ts, r) + if t.id.ledger == r then [t] else []
  {
    assert (ts + [t])[..|ts|] == ts;
  }

  lemma {:induction false} OnlyOwnCredit(tenant: Uuid, n: nat, amounts: map<Resource, nat>, period: nat,
      o: seq<Resource>, r: Resource)
    requires forall i :: 0 <= i < |o| ==> o[i] in amounts
    requires forall i, j :: 0 <= i < j < |o| ==> o[i] != o[j]
    ensures OnLedger(AllocationRequest(tenant, n, amounts, period, o), r) ==
            if r in o then [AllocationTransfer(tenant, n, r, amounts[r], period)] else []
    decreases |o|
  {
    if o != [] {
      var zs, z := o[..|o| - 1], o[|o| - 1];
      OnlyOwnCredit(tenant, n, amounts, period, zs, r);
      AllocationSnoc(tenant, n, amounts, period, o);
      OnLedgerSnoc(AllocationRequest(tenant, n, amounts, period, zs),
                   AllocationTransfer(tenant, n, z, amounts[z], period), r);
      assert o == zs + [z];
    }
  }

  /** A ledger is determined by its resources' parts. */
  lemma {:induction false} PartsDetermineLedger(k: State, m: State)
    requires forall r: Resource :: Project(k, r) == Project(m, r)
    ensures k == m
  {
    forall a: Account ensures a in k.accounts <==> a in m.accounts
                      ensures a in k.accounts ==> k.accounts[a] == m.accounts[a]
    {
      assert Project(k, a.ledger).accounts == Project(m, a.ledger).accounts;
      assert a in k.accounts <==> a in AccountsOn(k.accounts, a.ledger);
      assert a in m.accounts <==> a in AccountsOn(m.accounts, a.ledger);
    }
    forall id: TransferId
      ensures id in k.transfers <==> id in m.transfers
      ensures id in k.transfers ==> k.transfers[id] == m.transfers[id]
      ensures id in k.voidedBy <==> id in m.voidedBy
      ensures id in k.voidedBy ==> k.voidedBy[id] == m.voidedBy[id]
      ensures id in k.failed <==> id in m.failed
    {
      var r := id.ledger;
      assert Project(k, r) == Project(m, r);
      assert id in k.transfers <==> id in IdsOn(k.transfers, r);
      assert id in m.transfers <==> id in IdsOn(m.transfers, r);
      assert id in k.voidedBy <==> id in IdsOn(k.voidedBy, r);
      assert id in m.voidedBy <==> id in IdsOn(m.voidedBy, r);
      assert id in k.failed <==> id in Project(k, r).failed;
      assert id in m.failed <==> id in Project(m, r).failed;
    }
  }

  lemma {:induction false} SamePartOfLedger(l: State, tenant: Uuid, n: nat, amounts: map<Resource, nat>, period: nat,
      o: seq<Resource>, p: seq<Resource>, r: Resource)
    requires Valid(l) && IsOrder(o, amounts.Keys) && IsOrder(p, amounts.Keys)
    ensures Project(Run(l, AllocationRequest(tenant, n, amounts, period, o)), r) ==
            Project(Run(l, AllocationRequest(tenant, n, amounts, period, p)), r)
  {
    OnlyOwnCredit(tenant, n, amounts, period, o, r);
    OnlyOwnCredit(tenant, n, amounts, period, p, r);
    ResourcesDoNotInterfere(l, AllocationRequest(tenant, n, amounts, period, o), r);
    ResourcesDoNotInterfere(l, AllocationRequest(tenant, n, amounts, period, p), r);
  }

  /** The order of resources in an allocation request leaves no trace on the ledger. */
  lemma {:induction false} AllocationOrderIsIrrelevant(l: State, tenant: Uuid, n: nat, amounts: map<Resource, nat>,
      period: nat, o: seq<Resource>, p: seq<Resource>)
    requires Valid(l) && IsOrder(o, amounts.Keys) && IsOrder(p, amounts.Keys)
    ensures Run(l, AllocationRequest(tenant, n, amounts, period, o)) ==
            Run(l, AllocationRequest(tenant, n, amounts, period, p))
  {
    var xs, ys := AllocationRequest(tenant, n, amounts, period, o), AllocationRequest(tenant, n, amounts, period, p);
    forall r: Resource ensures Project(Run(l, xs), r) == Project(Run(l, ys), r) {
      SamePartOfLedger(l, tenant, n, amounts, period, o, p, r);
    }
    PartsDetermineLedger(Run(l, xs), Run(l, ys));
  }

  /**
   * Delivering a credit is what the allocation activity does with a single resource: in the only
   * order there is, the ledger runs the request, and the credit is acknowledged exactly when the
   * activity succeeds.
   */
  lemma {:induction false} CreditDeliveryIsActivity(s: Sys, n: nat, r: Resource, amount: int64, o: seq<Resource>)
    requires n in s.credits && s.credits[n] == CreditRequest(r, ToUint64(amount))
    requires IsOrder(o, map[r := amount].Keys)
    ensures forall i :: 0 <= i < |o| ==> o[i] in Amounts(map[r := amount])
    ensures var ts := AllocationRequest(s.config.tenant, n, Amounts(map[r := amount]), 0, o);
            SendCredit(s, n) ==
            s.(ledger := Run(s.ledger, ts),
               acked := if AllClassifiable(Outcomes(s.ledger, ts)) then s.acked + {n} else s.acked)
  {
    OnlyOrderOfOne(o, r);
    var t := CreditTransfer(s.config, n, s.credits[n]);
    assert AllocationRequest(s.config.tenant, n, Amounts(map[r := amount]), 0, o) == [t];
    assert [t][..0] == [];
    var x := Apply(s.ledger, t).outcome;
    assert Outcomes(s.ledger, [t]) == [x] && x in [x];
  }

  lemma {:induction false} OnlyOrderOfOne(o: seq<Resource>, r: Resource)
    requires IsOrder(o, {r})
    ensures o == [r]
  {
    assert r in o;
    assert o[0] in o && o[|o| - 1] in o;
  }

  /** The resources of the first allocation, among the first `n`, in their fixed order. */
  function Initially(cfg: Config, n: nat): (o: seq<Resource>)
    requires n <= |AllResources|
    ensures forall i :: 0 <= i < |o| ==> o[i] in cfg.initial
    ensures forall r :: r in o <==> r in cfg.initial && r in AllResources[..n]
  {
    if n == 0 then []
    else
      assert AllResources[..n] == AllResources[..n - 1] + [AllResources[n - 1]];
      Initially(cfg, n - 1) + if AllResources[n - 1] in cfg.initial then [AllResources[n - 1]] else []
  }

  lemma {:induction false} InitialIsAllocation(cfg: Config, n: nat)
    requires n <= |AllResources|
    ensures forall i, j :: 0 <= i < j < |Initially(cfg, n)| ==> Initially(cfg, n)[i] != Initially(cfg, n)[j]
    ensures InitialRequest(cfg, n) ==
            AllocationRequest(cfg.tenant, cfg.periodStart, cfg.initial, cfg.periodStart, Initially(cfg, n))
  {
    if n > 0 {
      InitialIsAllocation(cfg, n - 1);
      assert AllResources[n - 1] !in AllResources[..n - 1];
    }
  }

  /** Whatever order provisioning's map iteration takes, the first allocation leaves the ledger that runs start from. */
  lemma {:induction false} ProvisioningOrderIsIrrelevant(cfg: Config, o: seq<Resource>)
    requires IsOrder(o, cfg.initial.Keys)
    ensures Run(EmptyLedger(TenantAccounts(cfg.tenant)),
                AllocationRequest(cfg.tenant, cfg.periodStart, cfg.initial, cfg.periodStart, o)) == Init(cfg).ledger
  {
    var n, l0 := |AllResources|, EmptyLedger(TenantAccounts(cfg.tenant));
    EmptyLedgerValid(TenantAccounts(cfg.tenant));
    InitialIsAllocation(cfg, n);
    assert AllResources[..n] == AllResources;
    forall r: Resource ensures r in AllResources {
      EveryResource(r);
    }
    AllocationOrderIsIrrelevant(l0, cfg.tenant, cfg.periodStart, cfg.initial, cfg.periodStart, o, Initially(cfg, n));
  }
}
