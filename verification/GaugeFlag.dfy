/** What the last update of an order finds: it decides the flag of the gauge. */
module GaugeFlag {
  import opened Domain
  import opened Maps
  import opened Ledger
  import opened Transfers
  import opened GaugeOrder

  /** The update fits when `pending` is reserved and it gives back its old amount first. */
  predicate Fits(l: State, tenant: Uuid, pending: int, u: GaugeUpdate)
    requires GaugeWallet(tenant) in l.accounts
  {
    var b := l.accounts[GaugeWallet(tenant)];
    pending - OldAmount(l, u) + u.newAmount + b.debitsPosted <= b.creditsPosted
  }

  /** What is reserved after an update: it gives back its old amount, and takes its new one if that fits. */
  function AfterUpdate(l: State, tenant: Uuid, pending: int, u: GaugeUpdate): int
    requires GaugeWallet(tenant) in l.accounts
  {
    pending - OldAmount(l, u) + if Fits(l, tenant, pending, u) then u.newAmount else 0
  }

  /** What is reserved after updates in this order: a fold over old and new amounts. */
  function Reserved(l: State, tenant: Uuid, ps: seq<GaugeUpdate>): int
    requires GaugeWallet(tenant) in l.accounts
  {
    if ps == [] then l.accounts[GaugeWallet(tenant)].debitsPending
    else AfterUpdate(l, tenant, Reserved(l, tenant, ps[..|ps| - 1]), ps[|ps| - 1])
  }

  /** The last update fits what the ones before it leave. */
  predicate LastFits(l: State, tenant: Uuid, ps: seq<GaugeUpdate>)
    requires GaugeWallet(tenant) in l.accounts && ps != []
  {
    Fits(l, tenant, Reserved(l, tenant, ps[..|ps| - 1]), ps[|ps| - 1])
  }

  // ---------------------------------------------------------------------------------------------
  // One update
  // ---------------------------------------------------------------------------------------------

  lemma {:induction false} StepReserves(l: State, tenant: Uuid, u: GaugeUpdate)
    requires ReadyOne(l, tenant, u)
    ensures var k, w := Run(l, VoidPart(u) + ReservePart(u)), GaugeWallet(tenant);
            && w in k.accounts
            && k.accounts[w].debitsPending == AfterUpdate(l, tenant, l.accounts[w].debitsPending, u)
  {
    assert Fresh(l, tenant, u);
    VoidStep(l, tenant, u);
    RunConcat(l, VoidPart(u), ReservePart(u));
    ReserveStep(Run(l, VoidPart(u)), tenant, u);
  }

  lemma {:induction false} ReservationRefusedIff(l: State, tenant: Uuid, u: GaugeUpdate)
    requires Valid(l) && GaugeWallet(tenant) in l.accounts && Sink(ActiveNodes) in l.accounts
    requires u.tenant == tenant && u.newId !in l.transfers && u.newId !in l.failed && u.newAmount > 0
    ensures var b := l.accounts[GaugeWallet(tenant)];
            Apply(l, ReserveTransfer(u)).outcome.ExceedsCredits?
            <==> b.debitsPending + b.debitsPosted + u.newAmount > b.creditsPosted
  {
    var t := ReserveTransfer(u);
    assert [t][..0] == [];
    assert Run(l, [t]) == Apply(l, t).state;
    ReserveStep(l, tenant, u);
  }

  /** After its own void, the reservation is refused exactly when the update does not fit. */
  lemma {:induction false} StepRefusedIff(l: State, tenant: Uuid, u: GaugeUpdate)
    requires ReadyOne(l, tenant, u) && u.newAmount > 0
    ensures var pending := l.accounts[GaugeWallet(tenant)].debitsPending;
            Apply(Run(l, VoidPart(u)), ReserveTransfer(u)).outcome.ExceedsCredits? <==> !Fits(l, tenant, pending, u)
  {
    assert Fresh(l, tenant, u);
    VoidStep(l, tenant, u);
    ReservationRefusedIff(Run(l, VoidPart(u)), tenant, u);
  }

  lemma {:induction false} NothingFits(l: State, tenant: Uuid, u: GaugeUpdate)
    requires ReadyOne(l, tenant, u) && u.newAmount == 0
    ensures Fits(l, tenant, l.accounts[GaugeWallet(tenant)].debitsPending, u)
  {
    assert WithinCredits(l.accounts[GaugeWallet(tenant)]);
  }

  // ---------------------------------------------------------------------------------------------
  // A whole order
  // ---------------------------------------------------------------------------------------------

  /** When the last update's turn comes, its amounts are those it had at the start. */
  lemma {:induction false} LastTurn(l: State, tenant: Uuid, us: set<GaugeUpdate>, ps: seq<GaugeUpdate>)
    requires Ready(l, tenant, us) && OrderOfPart(ps, us) && ps != []
    ensures var zs, z, w := ps[..|ps| - 1], ps[|ps| - 1], GaugeWallet(tenant);
            var k := Run(l, GaugeBatch(zs));
            && ReadyOne(k, tenant, z) && OldAmount(k, z) == OldAmount(l, z)
            && k.accounts[w].debitsPosted == l.accounts[w].debitsPosted
            && k.accounts[w].creditsPosted == l.accounts[w].creditsPosted
            && Run(l, GaugeBatch(ps)) == Run(k, VoidPart(z) + ReservePart(z))
  {
    var zs, z := ps[..|ps| - 1], ps[|ps| - 1];
    SplitLast(ps, us);
    WalkReady(l, tenant, us, zs);
    assert z in us - Elements(zs);
    RunConcat(l, GaugeBatch(zs), VoidPart(z) + ReservePart(z));
  }

  lemma {:induction false} PrefixIsOrder(ps: seq<GaugeUpdate>, us: set<GaugeUpdate>)
    requires OrderOfPart(ps, us) && ps != []
    ensures OrderOfPart(ps[..|ps| - 1], us)
  {
    SplitLast(ps, us);
  }

  /** The fold of amounts is what the ledger does, whatever is refused on the way. */
  lemma {:induction false} WalkReserves(l: State, tenant: Uuid, us: set<GaugeUpdate>, ps: seq<GaugeUpdate>)
    requires Ready(l, tenant, us) && OrderOfPart(ps, us)
    ensures GaugeWallet(tenant) in Run(l, GaugeBatch(ps)).accounts
    ensures Run(l, GaugeBatch(ps)).accounts[GaugeWallet(tenant)].debitsPending == Reserved(l, tenant, ps)
    decreases |ps|
  {
    if ps != [] {
      PrefixIsOrder(ps, us);
      WalkReserves(l, tenant, us, ps[..|ps| - 1]);
      LastTurn(l, tenant, us, ps);
      StepReserves(Run(l, GaugeBatch(ps[..|ps| - 1])), tenant, ps[|ps| - 1]);
    }
  }

  lemma {:induction false} LastReservation(ps: seq<GaugeUpdate>)
    requires ps != [] && ps[|ps| - 1].newAmount > 0
    ensures var n := |ps| - 1;
            var zs, z, j := ps[..n], ps[n], ReserveIndex(ps, n);
            && j < |GaugeBatch(ps)| && GaugeBatch(ps)[j] == ReserveTransfer(z)
            && GaugeBatch(ps)[..j] == GaugeBatch(zs) + VoidPart(z)
  {
    ReserveIndexInBatch(ps, |ps| - 1);
  }

  lemma {:induction false} LastOutcome(l: State, ps: seq<GaugeUpdate>)
    requires ps != [] && ps[|ps| - 1].newAmount > 0
    ensures var zs, z := ps[..|ps| - 1], ps[|ps| - 1];
            GaugeResultAt(ps, Outcomes(l, GaugeBatch(ps)), |ps| - 1).exceedsCredits
            <==> Apply(Run(Run(l, GaugeBatch(zs)), VoidPart(z)), ReserveTransfer(z)).outcome.ExceedsCredits?
  {
    LastReservation(ps);
    OutcomesByIndex(l, GaugeBatch(ps), ReserveIndex(ps, |ps| - 1));
    RunConcat(l, GaugeBatch(ps[..|ps| - 1]), VoidPart(ps[|ps| - 1]));
  }

  /** The result of the last update is a refusal exactly when it does not fit. */
  lemma {:induction false} LastRefusedIff(l: State, tenant: Uuid, us: set<GaugeUpdate>, ps: seq<GaugeUpdate>)
    requires Ready(l, tenant, us) && OrderOfPart(ps, us) && ps != []
    ensures GaugeResultAt(ps, Outcomes(l, GaugeBatch(ps)), |ps| - 1).exceedsCredits <==> !LastFits(l, tenant, ps)
  {
    var zs, z := ps[..|ps| - 1], ps[|ps| - 1];
    PrefixIsOrder(ps, us);
    WalkReserves(l, tenant, us, zs);
    LastTurn(l, tenant, us, ps);
    if z.newAmount > 0 {
      LastOutcome(l, ps);
      StepRefusedIff(Run(l, GaugeBatch(zs)), tenant, z);
    } else {
      NothingFits(Run(l, GaugeBatch(zs)), tenant, z);
    }
  }

  /** Refusals only lower what is reserved. */
  lemma {:induction false} ReservedWithinChanges(l: State, tenant: Uuid, us: set<GaugeUpdate>, ps: seq<GaugeUpdate>)
    requires GaugeWallet(tenant) in l.accounts && OrderOfPart(ps, us)
    ensures Reserved(l, tenant, ps) <= l.accounts[GaugeWallet(tenant)].debitsPending + SetSum(Elements(ps), Delta(l))
    decreases |ps|
  {
    if ps == [] {
      assert Elements(ps) == {};
    } else {
      SplitLast(ps, us);
      ReservedWithinChanges(l, tenant, us, ps[..|ps| - 1]);
      SetSumAdd(Elements(ps[..|ps| - 1]), Delta(l), ps[|ps| - 1]);
    }
  }

  /** The wallet has room for what all clusters report together. */
  ghost predicate NewTotalFits(l: State, tenant: Uuid, us: set<GaugeUpdate>)
    requires GaugeWallet(tenant) in l.accounts
  {
    var b := l.accounts[GaugeWallet(tenant)];
    b.debitsPending + b.debitsPosted + SetSum(us, Delta(l)) <= b.creditsPosted
  }

  /** When the new total fits, the last update of any order fits, even where an earlier one was refused. */
  lemma {:induction false} NewTotalFitsLast(l: State, tenant: Uuid, us: set<GaugeUpdate>, ps: seq<GaugeUpdate>)
    requires GaugeWallet(tenant) in l.accounts && IsEnumeration(ps, us) && ps != [] && NewTotalFits(l, tenant, us)
    ensures LastFits(l, tenant, ps)
  {
    assert Elements(ps) == us;
    SplitLast(ps, us);
    ReservedWithinChanges(l, tenant, us, ps[..|ps| - 1]);
    SetSumAdd(Elements(ps[..|ps| - 1]), Delta(l), ps[|ps| - 1]);
  }

  /** Only an order of updates whose new total fits can be accepted in full. */
  lemma {:induction false} AcceptedOrderFits(l: State, tenant: Uuid, us: set<GaugeUpdate>, ps: seq<GaugeUpdate>)
    requires Ready(l, tenant, us) && IsEnumeration(ps, us) && AcceptsAll(l, ps)
    ensures NewTotalFits(l, tenant, us)
  {
    assert Elements(ps) == us;
    WalkPending(l, tenant, us, ps);
    WalkReady(l, tenant, us, ps);
    assert WithinCredits(Run(l, GaugeBatch(ps)).accounts[GaugeWallet(tenant)]);
  }
}
