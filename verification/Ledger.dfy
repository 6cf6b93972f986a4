/**
 * The double-entry ledger behind the credit system: accounts with balances, transfers by ID, and
 * the batch submission whose transfers are independent of each other (not linked).
 */
module Ledger {
  import opened Domain
  import opened TransferIds
  import opened Maps

  /** A tenant's wallet is the only account whose debits must not exceed its credits. */
  datatype Account =
    | Operator(ledger: Resource)
    | Wallet(tenant: Uuid, ledger: Resource)
    | Sink(ledger: Resource)

  datatype Balance = Balance(debitsPending: int, debitsPosted: int, creditsPending: int, creditsPosted: int)

  datatype Kind = Posted | Pending | VoidPending(pendingId: TransferId)

  datatype Transfer = Transfer(
    id: TransferId,
    debit: Account,
    credit: Account,
    amount: nat,
    kind: Kind,
    userData128: Uuid,
    userData64: nat)

  /** `voidedBy` maps a pending transfer to the void that released it; `failed` holds burnt IDs. */
  datatype State = State(
    accounts: map<Account, Balance>,
    transfers: map<TransferId, Transfer>,
    voidedBy: map<TransferId, TransferId>,
    failed: set<TransferId>)

  datatype Outcome =
    | Ok
    | Exists
    | ExistsWithDifferentAccount
    | ExistsWithDifferentAmount
    | ExistsWithDifferentOther
    | ExceedsCredits
    | PendingTransferNotFound
    | PendingTransferAlreadyVoided
    | PendingTransferMismatch
    | AccountNotFound
    | IdAlreadyFailed
    | InvalidTransfer

  datatype Step = Step(state: State, outcome: Outcome)

  /** Both accounts on one ledger, and different. */
  predicate Routable(t: Transfer) {
    t.debit != t.credit && t.debit.ledger == t.credit.ledger
  }

  predicate IsOpen(l: State, id: TransferId) {
    id in l.transfers && l.transfers[id].kind.Pending? && id !in l.voidedBy
  }

  function Open(l: State): map<TransferId, Transfer> {
    l.transfers - (set id | id in l.transfers && !IsOpen(l, id))
  }

  predicate WithinCredits(b: Balance) {
    b.debitsPending + b.debitsPosted <= b.creditsPosted
  }

  /** The answer for an ID that is already committed: which field, in checking order, differs. */
  function CompareExisting(t: Transfer, e: Transfer): Outcome {
    if t.kind != e.kind then ExistsWithDifferentOther
    else if t.debit != e.debit || t.credit != e.credit then ExistsWithDifferentAccount
    else if !t.kind.VoidPending? && t.amount != e.amount then ExistsWithDifferentAmount
    else if t.userData128 != e.userData128 || t.userData64 != e.userData64 then ExistsWithDifferentOther
    else Exists
  }

  function Charge(b: Balance, t: Transfer): Balance {
    if t.kind.Pending? then b.(debitsPending := b.debitsPending + t.amount)
    else b.(debitsPosted := b.debitsPosted + t.amount)
  }

  function Credit(b: Balance, t: Transfer): Balance {
    if t.kind.Pending? then b.(creditsPending := b.creditsPending + t.amount)
    else b.(creditsPosted := b.creditsPosted + t.amount)
  }

  function Commit(l: State, t: Transfer): State
    requires t.debit in l.accounts && t.credit in l.accounts
  {
    l.(accounts := l.accounts[t.debit := Charge(l.accounts[t.debit], t)]
                             [t.credit := Credit(l.accounts[t.credit], t)],
       transfers := l.transfers[t.id := t])
  }

  function Returned(m: map<Account, Balance>, p: Transfer): map<Account, Balance>
    requires p.debit in m && p.credit in m
  {
    m[p.debit := m[p.debit].(debitsPending := m[p.debit].debitsPending - p.amount)]
     [p.credit := m[p.credit].(creditsPending := m[p.credit].creditsPending - p.amount)]
  }

  /** A void returns the whole pending amount to both accounts. */
  function Release(l: State, t: Transfer, p: Transfer): State
    requires p.debit in l.accounts && p.credit in l.accounts
  {
    l.(accounts := Returned(l.accounts, p),
       transfers := l.transfers[t.id := t.(amount := p.amount)],
       voidedBy := l.voidedBy[p.id := t.id])
  }

  /** A rejection that depends on balances or on what exists burns the ID. */
  function Burn(l: State, t: Transfer): State {
    l.(failed := l.failed + {t.id})
  }

  function ApplyVoid(l: State, t: Transfer): Step
    requires t.kind.VoidPending? && t.debit in l.accounts && t.credit in l.accounts
  {
    var pid := t.kind.pendingId;
    if pid !in l.transfers then Step(Burn(l, t), PendingTransferNotFound)
    else
      var p := l.transfers[pid];
      if !p.kind.Pending? || p.id != pid || p.debit != t.debit || p.credit != t.credit then
        Step(l, PendingTransferMismatch)
      else if pid in l.voidedBy then Step(l, PendingTransferAlreadyVoided)
      else Step(Release(l, t, p), Ok)
  }

  function Apply(l: State, t: Transfer): Step {
    if t.id in l.transfers then Step(l, CompareExisting(t, l.transfers[t.id]))
    else if t.id in l.failed then Step(l, IdAlreadyFailed)
    else if !Routable(t) then Step(l, InvalidTransfer)
    else if t.debit !in l.accounts || t.credit !in l.accounts then Step(Burn(l, t), AccountNotFound)
    else if t.kind.VoidPending? then ApplyVoid(l, t)
    else if t.debit.Wallet? && !WithinCredits(Charge(l.accounts[t.debit], t)) then Step(Burn(l, t), ExceedsCredits)
    else Step(Commit(l, t), Ok)
  }

  /** The outcomes that burn an ID: it can never be committed any more. */
  predicate Burns(x: Outcome) {
    x.ExceedsCredits? || x.PendingTransferNotFound? || x.AccountNotFound?
  }

  /** What a transfer does: it commits its ID, burns it, or changes nothing at all. */
  lemma {:induction false} StepCommitsOrBurns(l: State, t: Transfer)
    requires l.transfers.Keys !! l.failed
    ensures var k, x := Apply(l, t).state, Apply(l, t).outcome;
            && (x.Ok? <==> t.id !in l.transfers && t.id in k.transfers)
            && (Burns(x) <==> t.id !in l.failed && t.id in k.failed)
            && (!x.Ok? && !Burns(x) ==> k == l)
            && k.transfers.Keys <= l.transfers.Keys + {t.id} && k.failed <= l.failed + {t.id}
  {
  }

  /** A batch is a left fold: every transfer is tried, whatever became of the ones before it. */
  function Run(l: State, ts: seq<Transfer>): State {
    if ts == [] then l
    else Apply(Run(l, ts[..|ts| - 1]), ts[|ts| - 1]).state
  }

  /** The outcome of transfer `i` of a batch. */
  function OutcomeAt(l: State, ts: seq<Transfer>, i: nat): Outcome
    requires i < |ts|
  {
    Apply(Run(l, ts[..i]), ts[i]).outcome
  }

  /** The outcomes of a batch, transfer by transfer. */
  function Outcomes(l: State, ts: seq<Transfer>): (os: seq<Outcome>)
    ensures |os| == |ts|
  {
    if ts == [] then []
    else Outcomes(l, ts[..|ts| - 1]) + [Apply(Run(l, ts[..|ts| - 1]), ts[|ts| - 1]).outcome]
  }

  lemma {:induction false} OutcomesByIndex(l: State, ts: seq<Transfer>, i: nat)
    requires i < |ts|
    ensures Outcomes(l, ts)[i] == OutcomeAt(l, ts, i)
    decreases |ts|
  {
    var zs := ts[..|ts| - 1];
    if i < |zs| {
      OutcomesByIndex(l, zs, i);
      assert zs[..i] == ts[..i];
    }
  }

  lemma {:induction false} RunSnoc(l: State, ts: seq<Transfer>, t: Transfer)
    ensures Run(l, ts + [t]) == Apply(Run(l, ts), t).state
  {
    assert (ts + [t])[..|ts|] == ts;
  }

  lemma {:induction false} RunConcat(l: State, xs: seq<Transfer>, ys: seq<Transfer>)
    ensures Run(l, xs + ys) == Run(Run(l, xs), ys)
    decreases |ys|
  {
    if ys == [] {
      assert xs + ys == xs;
    } else {
      var zs := ys[..|ys| - 1];
      assert (xs + ys)[..|xs + ys| - 1] == xs + zs;
      RunConcat(l, xs, zs);
    }
  }

  // ---------------------------------------------------------------------------------------------
  // What every ledger keeps
  // ---------------------------------------------------------------------------------------------

  datatype Column = DebitsPosted | CreditsPosted | DebitsPending | CreditsPending {
    predicate OfPending() {
      DebitsPending? || CreditsPending?
    }
  }

  function Field(b: Balance, c: Column): int {
    match c
    case DebitsPosted => b.debitsPosted
    case CreditsPosted => b.creditsPosted
    case DebitsPending => b.debitsPending
    case CreditsPending => b.creditsPending
  }

  /** What one transfer contributes to one column of one account. */
  function Contribution(c: Column, a: Account, t: Transfer): int {
    var party := if c.DebitsPosted? || c.DebitsPending? then t.debit else t.credit;
    if party == a && (if c.OfPending() then t.kind.Pending? else t.kind.Posted?) then t.amount else 0
  }

  function Weight(c: Column, a: Account): (TransferId, Transfer) -> int {
    (id: TransferId, t: Transfer) => Contribution(c, a, t)
  }

  /** The transfers that a column counts: those still open for pending ones, all for posted ones. */
  function Counted(l: State, c: Column): map<TransferId, Transfer> {
    if c.OfPending() then Open(l) else l.transfers
  }

  /** Every stored balance is the sum of the distinct transfers behind it, each counted once. */
  ghost predicate BalancesAreSums(l: State) {
    forall a, c :: a in l.accounts ==> Field(l.accounts[a], c) == Sum(Counted(l, c), Weight(c, a))
  }

  function LedgerWeight(c: Column, r: Resource): (Account, Balance) -> int {
    (a: Account, b: Balance) => if a.ledger == r then Field(b, c) else 0
  }

  /** Total of a column over all accounts of a ledger. */
  ghost function LedgerTotal(l: State, c: Column, r: Resource): int {
    Sum(l.accounts, LedgerWeight(c, r))
  }

  ghost predicate Balanced(l: State, r: Resource) {
    && LedgerTotal(l, DebitsPosted, r) == LedgerTotal(l, CreditsPosted, r)
    && LedgerTotal(l, DebitsPending, r) == LedgerTotal(l, CreditsPending, r)
  }

  ghost predicate DoubleEntry(l: State) {
    forall r :: Balanced(l, r)
  }

  ghost predicate HardLimit(l: State) {
    forall a :: a in l.accounts && a.Wallet? ==> WithinCredits(l.accounts[a])
  }

  /** Each void released one reservation, and each released reservation has its one void. */
  ghost predicate Paired(transfers: map<TransferId, Transfer>, voidedBy: map<TransferId, TransferId>) {
    && (forall id :: id in transfers && transfers[id].kind.VoidPending? ==>
          var p := transfers[id].kind.pendingId;
          p in voidedBy && voidedBy[p] == id)
    && (forall p :: p in voidedBy ==>
          p in transfers && transfers[p].kind.Pending?
          && voidedBy[p] in transfers && transfers[voidedBy[p]].kind == VoidPending(p))
  }

  ghost predicate WellFormed(l: State) {
    && (forall id :: id in l.transfers ==>
          var t := l.transfers[id];
          t.id == id && Routable(t) && t.debit in l.accounts && t.credit in l.accounts)
    && Paired(l.transfers, l.voidedBy)
    && l.transfers.Keys !! l.failed
  }

  ghost predicate Valid(l: State) {
    WellFormed(l) && BalancesAreSums(l) && DoubleEntry(l) && HardLimit(l)
  }

  ghost function EmptyLedger(accounts: set<Account>): State {
    State(MapOf(accounts, (_: Account) => Balance(0, 0, 0, 0)), map[], map[], {})
  }

  lemma {:induction false} EmptyLedgerValid(accounts: set<Account>)
    ensures Valid(EmptyLedger(accounts))
  {
    var l := EmptyLedger(accounts);
    assert Open(l) == map[];
    forall c: Column, r: Resource ensures LedgerTotal(l, c, r) == 0 {
      forall a | a in l.accounts ensures LedgerWeight(c, r)(a, l.accounts[a]) == 0 {
        assert l.accounts[a] == Balance(0, 0, 0, 0) && Field(Balance(0, 0, 0, 0), c) == 0;
      }
      SumZero(l.accounts, LedgerWeight(c, r));
    }
  }

  lemma {:induction false} CommitOpen(l: State, t: Transfer)
    requires WellFormed(l) && t.id !in l.transfers && t.debit in l.accounts && t.credit in l.accounts
    ensures t.kind.Pending? ==> Open(Commit(l, t)) == Open(l)[t.id := t]
    ensures !t.kind.Pending? ==> Open(Commit(l, t)) == Open(l)
  {
    assert t.id !in l.voidedBy;
  }

  lemma {:induction false} CommitSums(l: State, t: Transfer, a: Account, c: Column)
    requires WellFormed(l) && BalancesAreSums(l) && Routable(t) && !t.kind.VoidPending?
    requires t.id !in l.transfers && t.debit in l.accounts && t.credit in l.accounts && a in l.accounts
    ensures Field(Commit(l, t).accounts[a], c) == Sum(Counted(Commit(l, t), c), Weight(c, a))
  {
    CommitOpen(l, t);
    assert Field(l.accounts[a], c) == Sum(Counted(l, c), Weight(c, a));
    if c.OfPending() {
      if t.kind.Pending? {
        SumInsert(Open(l), Weight(c, a), t.id, t);
      }
    } else {
      SumInsert(l.transfers, Weight(c, a), t.id, t);
    }
  }

  lemma {:induction false} ReleaseOpen(l: State, t: Transfer, p: Transfer)
    requires WellFormed(l) && IsOpen(l, p.id) && l.transfers[p.id] == p
    requires t.id !in l.transfers && t.kind == VoidPending(p.id)
    ensures Open(Release(l, t, p)) == Open(l) - {p.id}
  {
  }

  lemma {:induction false} ReleaseSums(l: State, t: Transfer, p: Transfer, a: Account, c: Column)
    requires WellFormed(l) && BalancesAreSums(l) && IsOpen(l, p.id) && l.transfers[p.id] == p
    requires t.id !in l.transfers && t.kind == VoidPending(p.id) && a in l.accounts
    ensures Field(Release(l, t, p).accounts[a], c) == Sum(Counted(Release(l, t, p), c), Weight(c, a))
  {
    ReleaseOpen(l, t, p);
    assert Field(l.accounts[a], c) == Sum(Counted(l, c), Weight(c, a));
    if c.OfPending() {
      SumRemove(Open(l), Weight(c, a), p.id);
    } else {
      SumInsert(l.transfers, Weight(c, a), t.id, t.(amount := p.amount));
    }
  }

  /** Replacing two balances of one ledger moves each total by the two differences. */
  lemma {:induction false} TwoBalances(m: map<Account, Balance>, d: Account, bd: Balance, k: Account, bk: Balance,
      c: Column, r: Resource)
    requires d in m && k in m && d != k && d.ledger == k.ledger
    ensures Sum(m[d := bd][k := bk], LedgerWeight(c, r)) ==
            Sum(m, LedgerWeight(c, r))
            + (if d.ledger == r then Field(bd, c) - Field(m[d], c) + Field(bk, c) - Field(m[k], c) else 0)
  {
    SumUpdate(m, LedgerWeight(c, r), d, bd);
    SumUpdate(m[d := bd], LedgerWeight(c, r), k, bk);
  }

  lemma {:induction false} CommitDoubleEntry(l: State, t: Transfer)
    requires DoubleEntry(l) && Routable(t) && t.debit in l.accounts && t.credit in l.accounts
    ensures DoubleEntry(Commit(l, t))
  {
    forall r ensures Balanced(Commit(l, t), r) {
      assert Balanced(l, r);
      forall c: Column {
        TwoBalances(l.accounts, t.debit, Charge(l.accounts[t.debit], t),
                    t.credit, Credit(l.accounts[t.credit], t), c, r);
      }
    }
  }

  lemma {:induction false} ReturnedTotals(m: map<Account, Balance>, p: Transfer, c: Column, r: Resource)
    requires Routable(p) && p.debit in m && p.credit in m
    ensures Sum(Returned(m, p), LedgerWeight(c, r)) ==
            Sum(m, LedgerWeight(c, r)) - (if p.debit.ledger == r && c.OfPending() then p.amount else 0)
  {
    var d, k := m[p.debit], m[p.credit];
    TwoBalances(m, p.debit, d.(debitsPending := d.debitsPending - p.amount),
                p.credit, k.(creditsPending := k.creditsPending - p.amount), c, r);
  }

  lemma {:induction false} ReleaseDoubleEntry(l: State, t: Transfer, p: Transfer)
    requires DoubleEntry(l) && Routable(p) && p.debit in l.accounts && p.credit in l.accounts
    ensures DoubleEntry(Release(l, t, p))
  {
    forall r ensures Balanced(Release(l, t, p), r) {
      assert Balanced(l, r);
      forall c: Column {
        ReturnedTotals(l.accounts, p, c, r);
      }
    }
  }

  lemma {:induction false} CommitValid(l: State, t: Transfer)
    requires Valid(l) && Routable(t) && !t.kind.VoidPending?
    requires t.id !in l.transfers && t.id !in l.failed && t.debit in l.accounts && t.credit in l.accounts
    requires t.debit.Wallet? ==> WithinCredits(Charge(l.accounts[t.debit], t))
    ensures Valid(Commit(l, t))
  {
    var l' := Commit(l, t);
    forall a, c | a in l'.accounts ensures Field(l'.accounts[a], c) == Sum(Counted(l', c), Weight(c, a)) {
      CommitSums(l, t, a, c);
    }
    CommitDoubleEntry(l, t);
    assert t.id !in l.voidedBy;
  }

  lemma {:induction false} ReleaseValid(l: State, t: Transfer, p: Transfer)
    requires Valid(l) && Routable(t) && t.debit in l.accounts && t.credit in l.accounts
    requires t.id !in l.transfers && t.id !in l.failed && t.kind == VoidPending(p.id)
    requires IsOpen(l, p.id) && l.transfers[p.id] == p && p.debit == t.debit && p.credit == t.credit
    ensures Valid(Release(l, t, p))
  {
    var l' := Release(l, t, p);
    forall a, c | a in l'.accounts ensures Field(l'.accounts[a], c) == Sum(Counted(l', c), Weight(c, a)) {
      ReleaseSums(l, t, p, a, c);
    }
    ReleaseDoubleEntry(l, t, p);
    ReleaseWellFormed(l, t, p);
    assert HardLimit(l');
  }

  lemma {:induction false} ReleasePaired(transfers: map<TransferId, Transfer>, voidedBy: map<TransferId, TransferId>,
      id: TransferId, t: Transfer, p: TransferId)
    requires Paired(transfers, voidedBy) && id !in transfers && t.kind == VoidPending(p)
    requires p in transfers && transfers[p].kind.Pending? && p !in voidedBy
    ensures Paired(transfers[id := t], voidedBy[p := id])
  {
  }

  lemma {:induction false} ReleaseWellFormed(l: State, t: Transfer, p: Transfer)
    requires WellFormed(l) && Routable(t) && t.debit in l.accounts && t.credit in l.accounts
    requires t.id !in l.transfers && t.id !in l.failed && t.kind == VoidPending(p.id)
    requires IsOpen(l, p.id) && l.transfers[p.id] == p && p.debit == t.debit && p.credit == t.credit
    ensures WellFormed(Release(l, t, p))
  {
    ReleasePaired(l.transfers, l.voidedBy, t.id, t.(amount := p.amount), p.id);
  }

  /** Whatever is submitted, a ledger stays balanced, within every wallet's credits, and exact. */
  lemma {:induction false} ApplyValid(l: State, t: Transfer)
    requires Valid(l)
    ensures Valid(Apply(l, t).state)
  {
    var l' := Apply(l, t).state;
    if l'.transfers != l.transfers {
      if t.kind.VoidPending? {
        ReleaseValid(l, t, l.transfers[t.kind.pendingId]);
      } else {
        CommitValid(l, t);
      }
    } else {
      assert l' == l.(failed := l'.failed);
      assert Open(l') == Open(l);
      assert forall c :: Counted(l', c) == Counted(l, c);
      forall r ensures Balanced(l', r) {
        assert Balanced(l, r);
      }
    }
  }

  lemma {:induction false} RunValid(l: State, ts: seq<Transfer>)
    requires Valid(l)
    ensures Valid(Run(l, ts))
    decreases |ts|
  {
    if ts != [] {
      RunValid(l, ts[..|ts| - 1]);
      ApplyValid(Run(l, ts[..|ts| - 1]), ts[|ts| - 1]);
    }
  }

  /** With the same committed, voided and failed transfers, two ledgers hold the same balances. */
  lemma {:induction false} LedgerIsDetermined(l: State, k: State)
    requires Valid(l) && Valid(k)
    requires l.accounts.Keys == k.accounts.Keys
    requires l.transfers == k.transfers && l.voidedBy == k.voidedBy && l.failed == k.failed
    ensures l == k
  {
    assert Open(l) == Open(k);
    forall a | a in l.accounts ensures l.accounts[a] == k.accounts[a] {
      forall c: Column ensures Field(l.accounts[a], c) == Field(k.accounts[a], c) {
        assert Counted(l, c) == Counted(k, c);
      }
      assert forall c: Column :: Field(l.accounts[a], c) == Field(k.accounts[a], c);
      assert Field(l.accounts[a], DebitsPosted) == Field(k.accounts[a], DebitsPosted);
      assert Field(l.accounts[a], CreditsPosted) == Field(k.accounts[a], CreditsPosted);
      assert Field(l.accounts[a], DebitsPending) == Field(k.accounts[a], DebitsPending);
      assert Field(l.accounts[a], CreditsPending) == Field(k.accounts[a], CreditsPending);
    }
  }

  // ---------------------------------------------------------------------------------------------
  // History only grows, and a delivered transfer never acts twice
  // ---------------------------------------------------------------------------------------------

  ghost predicate Extends(l: State, l': State) {
    && l.accounts.Keys == l'.accounts.Keys
    && (forall id :: id in l.transfers ==> id in l'.transfers && l'.transfers[id] == l.transfers[id])
    && (forall id :: id in l.voidedBy ==> id in l'.voidedBy && l'.voidedBy[id] == l.voidedBy[id])
    && l.failed <= l'.failed
  }

  lemma {:induction false} ReleaseExtends(l: State, t: Transfer, p: Transfer)
    requires t.id !in l.transfers && p.id !in l.voidedBy && p.debit in l.accounts && p.credit in l.accounts
    ensures Extends(l, Release(l, t, p))
  {
  }

  lemma {:induction false} VoidExtends(l: State, t: Transfer)
    requires WellFormed(l) && t.kind.VoidPending? && t.id !in l.transfers && t.debit in l.accounts
    requires t.credit in l.accounts
    ensures Extends(l, ApplyVoid(l, t).state)
  {
    var pid := t.kind.pendingId;
    if IsOpen(l, pid) && l.transfers[pid].debit == t.debit && l.transfers[pid].credit == t.credit {
      ReleaseExtends(l, t, l.transfers[pid]);
    }
  }

  lemma {:induction false} ApplyExtends(l: State, t: Transfer)
    requires WellFormed(l)
    ensures Extends(l, Apply(l, t).state)
  {
    if t.id !in l.transfers && t.id !in l.failed && Routable(t) && t.debit in l.accounts && t.credit in l.accounts {
      if t.kind.VoidPending? {
        VoidExtends(l, t);
      } else {
        assert Extends(l, Commit(l, t));
      }
    }
  }

  lemma {:induction false} RunExtends(l: State, ts: seq<Transfer>)
    requires Valid(l)
    ensures Extends(l, Run(l, ts))
    decreases |ts|
  {
    if ts != [] {
      var k := Run(l, ts[..|ts| - 1]);
      RunExtends(l, ts[..|ts| - 1]);
      RunValid(l, ts[..|ts| - 1]);
      ApplyExtends(k, ts[|ts| - 1]);
    }
  }

  /** The transfer can no longer change the ledger. */
  predicate Settled(l: State, t: Transfer) {
    || t.id in l.transfers
    || t.id in l.failed
    || !Routable(t)
    || (t.kind.VoidPending? && t.kind.pendingId in l.transfers
        && (var p := l.transfers[t.kind.pendingId];
            !p.kind.Pending? || p.debit != t.debit || p.credit != t.credit || t.kind.pendingId in l.voidedBy))
  }

  lemma {:induction false} ApplySettles(l: State, t: Transfer)
    requires WellFormed(l)
    ensures Settled(Apply(l, t).state, t)
  {
  }

  lemma {:induction false} SettledStays(l: State, l': State, t: Transfer)
    requires Settled(l, t) && Extends(l, l')
    ensures Settled(l', t)
  {
  }

  lemma {:induction false} SettledIsIdle(l: State, t: Transfer)
    requires WellFormed(l) && Settled(l, t)
    requires t.debit in l.accounts && t.credit in l.accounts
    ensures Apply(l, t).state == l
  {
  }

  /** Once submitted, a batch leaves nothing unsettled. */
  lemma {:induction false} RunSettles(l: State, ts: seq<Transfer>)
    requires Valid(l)
    ensures forall t :: t in ts ==> Settled(Run(l, ts), t)
    decreases |ts|
  {
    if ts != [] {
      var zs, z := ts[..|ts| - 1], ts[|ts| - 1];
      RunSettles(l, zs);
      RunValid(l, zs);
      ApplyExtends(Run(l, zs), z);
      forall t | t in ts ensures Settled(Run(l, ts), t) {
        if t in zs {
          SettledStays(Run(l, zs), Run(l, ts), t);
        } else {
          ApplySettles(Run(l, zs), z);
        }
      }
    }
  }

  lemma {:induction false} SettledBatchIsIdle(l: State, ts: seq<Transfer>)
    requires WellFormed(l)
    requires forall t :: t in ts ==> Settled(l, t) && t.debit in l.accounts && t.credit in l.accounts
    ensures Run(l, ts) == l
    decreases |ts|
  {
    if ts != [] {
      SettledBatchIsIdle(l, ts[..|ts| - 1]);
      SettledIsIdle(l, ts[|ts| - 1]);
    }
  }

  /**
   * At-least-once delivery is delivery once: after a batch was delivered, and whatever else was
   * delivered since, delivering its transfers again, in any order, changes nothing.
   */
  lemma {:induction false} RedeliveryIsIdle(l: State, ts: seq<Transfer>, since: seq<Transfer>, again: seq<Transfer>)
    requires Valid(l)
    requires forall t :: t in ts ==> t.debit in l.accounts && t.credit in l.accounts
    requires forall t :: t in again ==> t in ts
    ensures Run(Run(Run(l, ts), since), again) == Run(Run(l, ts), since)
  {
    var k := Run(Run(l, ts), since);
    RunValid(l, ts);
    RunValid(Run(l, ts), since);
    RunSettles(l, ts);
    RunExtends(l, ts);
    RunExtends(Run(l, ts), since);
    forall t | t in again ensures Settled(k, t) && t.debit in k.accounts && t.credit in k.accounts {
      SettledStays(Run(l, ts), k, t);
    }
    SettledBatchIsIdle(k, again);
  }

  // ---------------------------------------------------------------------------------------------
  // Resources do not interfere
  // ---------------------------------------------------------------------------------------------

  function AccountsOn(m: map<Account, Balance>, r: Resource): map<Account, Balance> {
    m - (set a | a in m && a.ledger != r)
  }

  function IdsOn<T>(m: map<TransferId, T>, r: Resource): map<TransferId, T> {
    m - (set id | id in m && id.ledger != r)
  }

  /** The part of a ledger that belongs to one resource. */
  function Project(l: State, r: Resource): State {
    State(AccountsOn(l.accounts, r), IdsOn(l.transfers, r), IdsOn(l.voidedBy, r),
          set id | id in l.failed && id.ledger == r)
  }

  lemma {:induction false} AccountsOnUpdate(m: map<Account, Balance>, d: Account, bd: Balance, k: Account, bk: Balance,
      r: Resource)
    requires d in m && k in m && d.ledger == k.ledger
    ensures AccountsOn(m[d := bd][k := bk], r) ==
            if d.ledger == r then AccountsOn(m, r)[d := bd][k := bk] else AccountsOn(m, r)
  {
  }

  lemma {:induction false} IdsOnUpdate<T>(m: map<TransferId, T>, id: TransferId, v: T, r: Resource)
    ensures IdsOn(m[id := v], r) == if id.ledger == r then IdsOn(m, r)[id := v] else IdsOn(m, r)
  {
  }

  /** Every ID names the ledger it is used on. */
  predicate OnOneLedger(t: Transfer) {
    && t.debit.ledger == t.id.ledger
    && t.credit.ledger == t.id.ledger
    && (t.kind.VoidPending? ==> t.kind.pendingId.ledger == t.id.ledger)
  }

  lemma {:induction false} CommitProjects(l: State, t: Transfer, r: Resource)
    requires t.debit in l.accounts && t.credit in l.accounts && OnOneLedger(t)
    ensures t.id.ledger == r ==> Commit(Project(l, r), t) == Project(Commit(l, t), r)
    ensures t.id.ledger != r ==> Project(Commit(l, t), r) == Project(l, r)
  {
    AccountsOnUpdate(l.accounts, t.debit, Charge(l.accounts[t.debit], t), t.credit, Credit(l.accounts[t.credit], t), r);
    IdsOnUpdate(l.transfers, t.id, t, r);
  }

  lemma {:induction false} ReturnedOn(m: map<Account, Balance>, p: Transfer, r: Resource)
    requires p.debit in m && p.credit in m && p.debit.ledger == p.credit.ledger
    ensures p.debit.ledger == r ==> p.debit in AccountsOn(m, r) && p.credit in AccountsOn(m, r)
    ensures AccountsOn(Returned(m, p), r) ==
            if p.debit.ledger == r then Returned(AccountsOn(m, r), p) else AccountsOn(m, r)
  {
    var d, c := m[p.debit], m[p.credit];
    AccountsOnUpdate(m, p.debit, d.(debitsPending := d.debitsPending - p.amount),
                     p.credit, c.(creditsPending := c.creditsPending - p.amount), r);
  }

  lemma {:induction false} ReleaseProjects(l: State, t: Transfer, p: Transfer, r: Resource)
    requires p.debit in l.accounts && p.credit in l.accounts && OnOneLedger(t)
    requires p.debit == t.debit && p.credit == t.credit && t.kind == VoidPending(p.id)
    ensures t.id.ledger == r ==> Release(Project(l, r), t, p) == Project(Release(l, t, p), r)
    ensures t.id.ledger != r ==> Project(Release(l, t, p), r) == Project(l, r)
  {
    ReturnedOn(l.accounts, p, r);
    IdsOnUpdate(l.transfers, t.id, t.(amount := p.amount), r);
    IdsOnUpdate(l.voidedBy, p.id, t.id, r);
  }

  lemma {:induction false} BurnProjects(l: State, t: Transfer, r: Resource)
    ensures t.id.ledger == r ==> Burn(Project(l, r), t) == Project(Burn(l, t), r)
    ensures t.id.ledger != r ==> Project(Burn(l, t), r) == Project(l, r)
  {
  }

  lemma {:induction false} ApplyElsewhere(l: State, t: Transfer, r: Resource)
    requires WellFormed(l) && OnOneLedger(t) && t.id.ledger != r
    ensures Project(Apply(l, t).state, r) == Project(l, r)
  {
    BurnProjects(l, t, r);
    if t.debit in l.accounts && t.credit in l.accounts {
      CommitProjects(l, t, r);
      if t.kind.VoidPending? && t.kind.pendingId in l.transfers {
        var p := l.transfers[t.kind.pendingId];
        if p.debit == t.debit && p.credit == t.credit {
          ReleaseProjects(l, t, p, r);
        }
      }
    }
  }

  /** On its own ledger a transfer sees the same IDs, balances and pending transfers. */
  lemma {:induction false} ApplyHere(l: State, t: Transfer, r: Resource)
    requires WellFormed(l) && OnOneLedger(t) && t.id.ledger == r
    ensures Apply(Project(l, r), t) == Step(Project(Apply(l, t).state, r), Apply(l, t).outcome)
  {
    var k := Project(l, r);
    assert t.id in k.transfers <==> t.id in l.transfers;
    assert t.debit in k.accounts <==> t.debit in l.accounts;
    assert t.credit in k.accounts <==> t.credit in l.accounts;
    if t.id in l.transfers {
      assert k.transfers[t.id] == l.transfers[t.id];
    } else if t.id in l.failed || !Routable(t) {
    } else if t.debit !in l.accounts || t.credit !in l.accounts {
      BurnProjects(l, t, r);
    } else if t.kind.VoidPending? {
      VoidHere(l, t, r);
    } else {
      BurnProjects(l, t, r);
      CommitProjects(l, t, r);
    }
  }

  lemma {:induction false} VoidHere(l: State, t: Transfer, r: Resource)
    requires WellFormed(l) && OnOneLedger(t) && t.id.ledger == r
    requires t.kind.VoidPending? && t.debit in l.accounts && t.credit in l.accounts
    ensures ApplyVoid(Project(l, r), t) == Step(Project(ApplyVoid(l, t).state, r), ApplyVoid(l, t).outcome)
  {
    var pid := t.kind.pendingId;
    if pid !in l.transfers {
      BurnProjects(l, t, r);
    } else {
      var p := l.transfers[pid];
      assert pid in Project(l, r).transfers && Project(l, r).transfers[pid] == p;
      if p.debit == t.debit && p.credit == t.credit {
        ReleaseProjects(l, t, p, r);
      }
    }
  }

  function OnLedger(ts: seq<Transfer>, r: Resource): seq<Transfer> {
    if ts == [] then []
    else
      var zs := OnLedger(ts[..|ts| - 1], r);
      if ts[|ts| - 1].id.ledger == r then zs + [ts[|ts| - 1]] else zs
  }

  /**
   * For every mixed batch, what happens on one resource's ledger is what submitting that
   * resource's transfers alone would do.
   */
  lemma {:induction false} ResourcesDoNotInterfere(l: State, ts: seq<Transfer>, r: Resource)
    requires Valid(l)
    requires forall t :: t in ts ==> OnOneLedger(t)
    ensures Project(Run(l, ts), r) == Run(Project(l, r), OnLedger(ts, r))
    decreases |ts|
  {
    if ts != [] {
      var zs, z := ts[..|ts| - 1], ts[|ts| - 1];
      ResourcesDoNotInterfere(l, zs, r);
      RunValid(l, zs);
      if z.id.ledger == r {
        ApplyHere(Run(l, zs), z, r);
        RunSnoc(Project(l, r), OnLedger(zs, r), z);
      } else {
        ApplyElsewhere(Run(l, zs), z, r);
      }
    }
  }

  /** Each transfer of that resource also gets the outcome it would have got alone. */
  lemma {:induction false} OutcomesDoNotInterfere(l: State, ts: seq<Transfer>, i: nat)
    requires Valid(l) && i < |ts|
    requires forall t :: t in ts ==> OnOneLedger(t)
    ensures var r := ts[i].id.ledger;
            var k := |OnLedger(ts[..i], r)|;
            && k < |OnLedger(ts[..i + 1], r)|
            && OnLedger(ts[..i + 1], r)[k] == ts[i]
            && OutcomeAt(l, ts, i) == OutcomeAt(Project(l, r), OnLedger(ts[..i + 1], r), k)
  {
    var r := ts[i].id.ledger;
    var zs := OnLedger(ts[..i], r);
    assert ts[..i + 1][..i] == ts[..i];
    assert OnLedger(ts[..i + 1], r) == zs + [ts[i]];
    assert (zs + [ts[i]])[..|zs|] == zs;
    ResourcesDoNotInterfere(l, ts[..i], r);
    RunValid(l, ts[..i]);
    ApplyHere(Run(l, ts[..i]), ts[i], r);
  }
}
