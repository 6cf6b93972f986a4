/** Balance snapshots: looked up on the ledger, written to the database later and in any order. */
module Snapshots {
  import opened Domain
  import opened Maps
  import opened Ledger
  import opened Protocol
  import opened Preservation
  import opened Guarantees

  /** A database row of three 64-bit integers. */
  datatype Snapshot = Snapshot(creditsTotal: int64, debitsPosted: int64, debitsPending: int64) {
    /** The generated column. */
    function Available(): int {
      creditsTotal - debitsPosted - debitsPending
    }
  }

  /** The low word of a 128-bit balance. */
  function Low64(n: int): (r: nat)
    ensures r < TWO_64
  {
    n % TWO_64
  }

  predicate NonNegative(b: Balance) {
    b.debitsPending >= 0 && b.debitsPosted >= 0 && b.creditsPosted >= 0
  }

  function SnapshotOf(b: Balance): Snapshot {
    Snapshot(ToInt64(Low64(b.creditsPosted)), ToInt64(Low64(b.debitsPosted)), ToInt64(Low64(b.debitsPending)))
  }

  predicate Exact(n: Snapshot, b: Balance) {
    n.creditsTotal == b.creditsPosted && n.debitsPosted == b.debitsPosted && n.debitsPending == b.debitsPending
  }

  /** Of a balance within its credits, the snapshot is exact exactly when the credits fit 63 bits. */
  lemma {:induction false} ExactIffCreditsFit(b: Balance)
    requires NonNegative(b) && WithinCredits(b)
    ensures Exact(SnapshotOf(b), b) <==> b.creditsPosted < TWO_63
    ensures b.creditsPosted < TWO_63 ==>
              SnapshotOf(b).Available() == b.creditsPosted - b.debitsPosted - b.debitsPending >= 0
  {
    if b.creditsPosted < TWO_63 {
      assert b.debitsPosted < TWO_63 && b.debitsPending < TWO_63;
    }
  }

  // ---------------------------------------------------------------------------------------------
  // The lookup
  // ---------------------------------------------------------------------------------------------

  datatype Found = Found(account: Account, balance: Balance)

  /** What the ledger answers: the accounts it knows, in the order asked for. */
  function LookupAccounts(accounts: map<Account, Balance>, ids: seq<Account>): seq<Found> {
    if ids == [] then []
    else LookupAccounts(accounts, ids[..|ids| - 1])
         + if ids[|ids| - 1] in accounts then [Found(ids[|ids| - 1], accounts[ids[|ids| - 1]])] else []
  }

  lemma {:induction false} FoundIffKnown(accounts: map<Account, Balance>, ids: seq<Account>)
    ensures forall f :: f in LookupAccounts(accounts, ids) ==>
              f.account in ids && f.account in accounts && f.balance == accounts[f.account]
    ensures forall a :: a in ids && a in accounts ==> Found(a, accounts[a]) in LookupAccounts(accounts, ids)
    decreases |ids|
  {
    if ids != [] {
      var zs, z := ids[..|ids| - 1], ids[|ids| - 1];
      FoundIffKnown(accounts, zs);
      assert ids == zs + [z];
    }
  }

  /**
   * Correlates the answer with the resources asked for. Whatever order the map iteration gave
   * them, each known wallet's balance comes under its own resource, and unknown ones are left out.
   */
  method LookupBalances(accounts: map<Account, Balance>, tenant: Uuid, keys: seq<Resource>)
    returns (result: map<Resource, Balance>)
    ensures forall r :: r in result <==> r in keys && Wallet(tenant, r) in accounts
    ensures forall r :: r in result ==> result[r] == accounts[Wallet(tenant, r)]
  {
    var ids := [];
    for i := 0 to |keys|
      invariant |ids| == i && forall k :: 0 <= k < i ==> ids[k] == Wallet(tenant, keys[k])
    {
      ids := ids + [Wallet(tenant, keys[i])];
    }
    var found := LookupAccounts(accounts, ids);
    FoundIffKnown(accounts, ids);
    result := map[];
    for i := 0 to |ids|
      invariant forall r :: r in result <==> r in keys[..i] && Wallet(tenant, r) in accounts
      invariant forall r :: r in result ==> result[r] == accounts[Wallet(tenant, r)]
    {
      var j := 0;
      while j < |found| && found[j].account != ids[i]
        invariant 0 <= j <= |found|
        invariant forall k :: 0 <= k < j ==> found[k].account != ids[i]
      {
        j := j + 1;
      }
      assert ids[i] in ids;
      if j < |found| {
        assert found[j] in found;
        result := result[keys[i] := found[j].balance];
      }
      assert keys[..i + 1] == keys[..i] + [keys[i]];
    }
    assert keys[..|keys|] == keys;
  }

  /** The activity: every balance converted to the integers of a database row. */
  method LookupAccountBalances(accounts: map<Account, Balance>, tenant: Uuid, keys: seq<Resource>)
    returns (result: map<Resource, Snapshot>)
    ensures forall r :: r in result <==> r in keys && Wallet(tenant, r) in accounts
    ensures forall r :: r in result ==> result[r] == SnapshotOf(accounts[Wallet(tenant, r)])
  {
    var balances := LookupBalances(accounts, tenant, keys);
    result := map[];
    var rest := balances.Keys;
    while rest != {}
      invariant rest <= balances.Keys
      invariant forall r :: r in result <==> r in balances && r !in rest
      invariant forall r :: r in result ==> result[r] == SnapshotOf(balances[r])
      decreases |rest|
    {
      var r :| r in rest;
      result := result[r := SnapshotOf(balances[r])];
      rest := rest - {r};
    }
  }

  // ---------------------------------------------------------------------------------------------
  // Lookups and writes while the protocol runs
  // ---------------------------------------------------------------------------------------------

  /** `looked` holds every lookup result there ever was; `table` is the database's current rows. */
  datatype Projection = Projection(sys: Sys, looked: set<map<Resource, Balance>>, table: map<Resource, Snapshot>)

  /** A row may be written from any lookup so far, late, again, and one resource without the other. */
  datatype Happening =
    | Protocol(e: Event)
    | Lookup
    | WriteRow(from: map<Resource, Balance>, r: Resource)

  ghost function Balances(s: Sys): map<Resource, Balance> {
    MapOf(set r: Resource | r in AllResources && WalletOf(s, r) in s.ledger.accounts,
          (r: Resource) requires WalletOf(s, r) in s.ledger.accounts => s.ledger.accounts[WalletOf(s, r)])
  }

  ghost function Happen(p: Projection, h: Happening): Projection {
    match h
    case Protocol(e) => p.(sys := Next(p.sys, e))
    case Lookup => p.(looked := p.looked + {Balances(p.sys)})
    case WriteRow(from, r) =>
      if from in p.looked && r in from then p.(table := p.table[r := SnapshotOf(from[r])]) else p
  }

  ghost function Project(cfg: Config, hs: seq<Happening>): Projection {
    if hs == [] then Projection(Init(cfg), {}, map[])
    else Happen(Project(cfg, hs[..|hs| - 1]), hs[|hs| - 1])
  }

  /** The wallet held exactly this balance at some instant of the run. */
  ghost predicate HeldOnce(cfg: Config, hs: seq<Happening>, r: Resource, b: Balance) {
    exists k :: 0 <= k <= |hs| && HeldAt(Project(cfg, hs[..k]).sys, r, b)
  }

  predicate HeldAt(s: Sys, r: Resource, b: Balance) {
    WalletOf(s, r) in s.ledger.accounts && s.ledger.accounts[WalletOf(s, r)] == b
  }

  lemma {:induction false} HeldEarlier(cfg: Config, hs: seq<Happening>, h: Happening, r: Resource, b: Balance)
    requires HeldOnce(cfg, hs, r, b)
    ensures HeldOnce(cfg, hs + [h], r, b)
  {
    var k :| 0 <= k <= |hs| && HeldAt(Project(cfg, hs[..k]).sys, r, b);
    assert (hs + [h])[..k] == hs[..k];
  }

  /** The protocol does not notice lookups and writes. */
  lemma {:induction false} RunsTheProtocol(cfg: Config, hs: seq<Happening>)
    returns (es: seq<Event>)
    ensures Project(cfg, hs).sys == Exec(Init(cfg), es)
    decreases |hs|
  {
    if hs == [] {
      es := [];
    } else {
      es := RunsTheProtocol(cfg, hs[..|hs| - 1]);
      match hs[|hs| - 1] {
        case Protocol(e) =>
          assert (es + [e])[..|es|] == es;
          es := es + [e];
        case _ =>
      }
    }
  }

  lemma {:induction false} WalletIsSound(cfg: Config, es: seq<Event>, r: Resource)
    ensures var s := Exec(Init(cfg), es);
            && WalletOf(s, r) in s.ledger.accounts
            && NonNegative(s.ledger.accounts[WalletOf(s, r)]) && WithinCredits(s.ledger.accounts[WalletOf(s, r)])
  {
    var s := Exec(Init(cfg), es);
    assert Valid(s.ledger) && WalletOf(s, r) in s.ledger.accounts by {
      ExecInv(cfg, es);
      WalletExists(s, r);
    }
    var w := WalletOf(s, r);
    FieldNonNegative(s.ledger, w, DebitsPending);
    FieldNonNegative(s.ledger, w, DebitsPosted);
    FieldNonNegative(s.ledger, w, CreditsPosted);
  }

  lemma {:induction false} FieldNonNegative(l: State, a: Account, c: Column)
    requires BalancesAreSums(l) && a in l.accounts
    ensures Field(l.accounts[a], c) >= 0
  {
    SumNonNegative(Counted(l, c), Weight(c, a));
  }

  lemma {:induction false} HeldNow(cfg: Config, hs: seq<Happening>, h: Happening, r: Resource)
    requires r in Balances(Project(cfg, hs).sys)
    ensures HeldOnce(cfg, hs + [h], r, Balances(Project(cfg, hs).sys)[r])
  {
    assert (hs + [h])[..|hs|] == hs;
    assert HeldAt(Project(cfg, hs).sys, r, Balances(Project(cfg, hs).sys)[r]);
  }

  lemma {:induction false} LookedWereHeld(cfg: Config, hs: seq<Happening>, m: map<Resource, Balance>, r: Resource)
    requires m in Project(cfg, hs).looked && r in m
    ensures HeldOnce(cfg, hs, r, m[r])
    decreases |hs|
  {
    var zs, z := hs[..|hs| - 1], hs[|hs| - 1];
    assert hs == zs + [z];
    if m in Project(cfg, zs).looked {
      LookedWereHeld(cfg, zs, m, r);
      HeldEarlier(cfg, zs, z, r, m[r]);
    } else {
      HeldNow(cfg, zs, z, r);
    }
  }

  /** Row `n` shows a balance that the wallet held, and shows it exactly when its credits fit. */
  ghost predicate Shows(cfg: Config, hs: seq<Happening>, r: Resource, n: Snapshot) {
    exists b :: HeldOnce(cfg, hs, r, b) && n == SnapshotOf(b)
                && (Exact(n, b) <==> b.creditsPosted < TWO_63) && (b.creditsPosted < TWO_63 ==> n.Available() >= 0)
  }

  lemma {:induction false} HeldIsSound(cfg: Config, hs: seq<Happening>, r: Resource, b: Balance)
    requires HeldOnce(cfg, hs, r, b)
    ensures NonNegative(b) && WithinCredits(b)
  {
    var k :| 0 <= k <= |hs| && HeldAt(Project(cfg, hs[..k]).sys, r, b);
    var es := RunsTheProtocol(cfg, hs[..k]);
    WalletIsSound(cfg, es, r);
  }

  lemma {:induction false} HeldShows(cfg: Config, hs: seq<Happening>, r: Resource, b: Balance)
    requires HeldOnce(cfg, hs, r, b)
    ensures Shows(cfg, hs, r, SnapshotOf(b))
  {
    HeldIsSound(cfg, hs, r, b);
    ExactIffCreditsFit(b);
  }

  lemma {:induction false} ShowsStays(cfg: Config, hs: seq<Happening>, h: Happening, r: Resource, n: Snapshot)
    requires Shows(cfg, hs, r, n)
    ensures Shows(cfg, hs + [h], r, n)
  {
    var b :| HeldOnce(cfg, hs, r, b) && n == SnapshotOf(b)
             && (Exact(n, b) <==> b.creditsPosted < TWO_63) && (b.creditsPosted < TWO_63 ==> n.Available() >= 0);
    HeldEarlier(cfg, hs, h, r, b);
  }

  /**
   * However lookups and writes of flushes and credits interleave, a slow one overwriting a newer
   * one included: every row is the balance its wallet held at one instant of the run. As long as
   * credits stay below two to the sixty-third it is exact and nothing is shown as overdrawn.
   */
  lemma {:induction false} RowsShowHeldBalances(cfg: Config, hs: seq<Happening>, r: Resource)
    requires r in Project(cfg, hs).table
    ensures Shows(cfg, hs, r, Project(cfg, hs).table[r])
    decreases |hs|
  {
    var zs, z := hs[..|hs| - 1], hs[|hs| - 1];
    assert hs == zs + [z];
    var p := Project(cfg, zs);
    if z.WriteRow? && z.r == r && z.from in p.looked && r in z.from {
      LookedWereHeld(cfg, zs, z.from, r);
      HeldShows(cfg, zs, r, z.from[r]);
      ShowsStays(cfg, zs, z, r, SnapshotOf(z.from[r]));
    } else {
      RowsShowHeldBalances(cfg, zs, r);
      ShowsStays(cfg, zs, z, r, p.table[r]);
    }
  }
}
