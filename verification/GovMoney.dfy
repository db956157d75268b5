/**
 Conservation of coins when deposits are settled.  A refund pays every depositor its deposit,
 a burn takes the deposits out of the supply, and either way the gov account pays precisely
 what it stops owing.  Whether it covers what else it owes does not matter.
 */
module GovMoney {
  import opened Options
  import opened GovTypes
  import opened CoinSums
  import opened GovStore
  import opened GovInvariants

  /** All coins there are, which is what the bank keeps as the supply. */
  ghost function Total(w: World): Coins {
    w.gov + Sum(w.accounts)
  }

  /** x' - x == y' - y, without subtraction. */
  predicate SameChange(x: Coins, x': Coins, y: Coins, y': Coins) {
    x' + y == x + y'
  }

  ghost predicate SupplyIsTotal(w: World) {
    w.supply == Total(w)
  }

  lemma PaidTo(accounts: map<Address, Coins>, deposits: map<DKey, Coins>, id: nat)
    ensures var paid := PayBack(accounts, OfProposal(deposits, id), id);
            forall a :: Get(paid, a) == Get(accounts, a) + Get(deposits, DKey(id, a))
  {
    forall a
      ensures Get(PayBack(accounts, OfProposal(deposits, id), id), a) == Get(accounts, a) + Get(deposits, DKey(id, a))
    {
      PayBackAt(accounts, OfProposal(deposits, id), id, a);
    }
  }

  /** RefundAndDeleteDeposits: each depositor gets back what it deposited, from the gov account, and the record goes. */
  lemma RefundExact(s: Store, id: nat)
    requires !Short(s, id)
    ensures var s', paid := RefundDeposits(s, id), Sum(OfProposal(s.deposits, id));
            && (forall a :: Get(s'.world.accounts, a) == Get(s.world.accounts, a) + Get(s.deposits, DKey(id, a)))
            && Total(s'.world) == Total(s.world)
            && s'.world.gov + paid == s.world.gov && Sum(s'.deposits) + paid == Sum(s.deposits)
            && s'.deposits == Without(s.deposits, id)
            && s'.world == s.world.(gov := s'.world.gov, accounts := s'.world.accounts)
            && s' == s.(deposits := s'.deposits, world := s'.world)
  {
    SumSplit(s.deposits, id);
    PaidTo(s.world.accounts, s.deposits, id);
    var ds := OfProposal(s.deposits, id);
    assert forall d | d in ds :: d.id == id;
    hide Sum, PayBack, OfProposal, Without, Get;
    PayBackSum(s.world.accounts, ds, id);
    TakeAndGive(s.world.gov, Sum(ds), Sum(s.world.accounts));
  }

  lemma TakeAndGive(g: Coins, paid: Coins, a: Coins)
    requires paid <= g
    ensures (g - paid) + (a + paid) == g + a && (g - paid) + paid == g
  {
  }

  /** DeleteAndBurnDeposits: the deposits leave the gov account, the records and the supply; no account changes. */
  lemma BurnExact(s: Store, id: nat)
    requires !Short(s, id)
    ensures var s', burnt := BurnDeposits(s, id), Sum(OfProposal(s.deposits, id));
            && (SupplyIsTotal(s.world) ==> s'.world.supply + burnt == s.world.supply && SupplyIsTotal(s'.world))
            && s'.world.gov + burnt == s.world.gov && Sum(s'.deposits) + burnt == Sum(s.deposits)
            && s'.deposits == Without(s.deposits, id)
            && s'.world == s.world.(gov := s'.world.gov, supply := s'.world.supply)
            && s' == s.(deposits := s'.deposits, world := s'.world)
  {
    SumSplit(s.deposits, id);
    hide Sum, OfProposal, Without;
    BurnAmounts(s.world.supply, s.world.gov, Sum(s.world.accounts), Sum(OfProposal(s.deposits, id)));
  }

  lemma BurnAmounts(supply: Coins, g: Coins, a: Coins, burnt: Coins)
    requires burnt <= g
    ensures g - burnt + burnt == g
    ensures supply == g + a ==> supply - burnt + burnt == supply && supply - burnt == (g - burnt) + a
  {
  }

  /** Settling panics exactly when the gov account cannot pay the proposal's deposits. */
  lemma SettleHaltsIff(s: Store, id: nat, burn: bool)
    requires !s.halted
    ensures SettleDeposits(s, id, burn).halted <==> !(Sum(OfProposal(s.deposits, id)) <= s.world.gov)
  {
    hide Sum, PayBack, OfProposal;
  }

  lemma SettleBalance(s: Store, id: nat, burn: bool)
    requires !Short(s, id)
    ensures var s', paid := SettleDeposits(s, id, burn), Sum(OfProposal(s.deposits, id));
            && s'.world.gov + paid == s.world.gov && Sum(s'.deposits) + paid == Sum(s.deposits)
            && (SupplyIsTotal(s.world) ==>
                  SupplyIsTotal(s'.world) && s'.world.supply + (if burn then paid else multiset{}) == s.world.supply)
            && s'.deposits == Without(s.deposits, id) && s' == s.(deposits := s'.deposits, world := s'.world)
  {
    hide RefundDeposits, BurnDeposits, Sum, Without, OfProposal, Total, Short;
    if burn { BurnExact(s, id); } else { RefundExact(s, id); }
  }

  // ---------------------------------------------------------------- flows

  /**
   What happens to coins between two stores: deposits burnt, coins minted and taken out of the
   supply otherwise, and coins the gov account gained and spent other than by deposits.
   */
  datatype Flow = Flow(burnt: Coins, minted: Coins, taken: Coins, gained: Coins, spent: Coins) {
    function Plus(f: Flow): Flow {
      Flow(burnt + f.burnt, minted + f.minted, taken + f.taken, gained + f.gained, spent + f.spent)
    }
  }

  const STILL: Flow := Flow(multiset{}, multiset{}, multiset{}, multiset{}, multiset{})

  /** The gov account changes by what the stored deposits change, what it gained and what it spent. */
  ghost predicate Accounts(s: Store, s': Store, f: Flow) {
    s'.world.gov + Sum(s.deposits) + f.spent == s.world.gov + f.gained + Sum(s'.deposits)
  }

  /** The bank's books balance, and the supply changes by exactly the flow. */
  ghost predicate Booked(s: Store, s': Store, f: Flow) {
    && SupplyIsTotal(s.world) && SupplyIsTotal(s'.world)
    && s'.world.supply + f.burnt + f.taken == s.world.supply + f.minted
  }

  lemma AccountsCompose(s: Store, s1: Store, s2: Store, f: Flow, g: Flow)
    requires Accounts(s, s1, f) && Accounts(s1, s2, g)
    ensures Accounts(s, s2, f.Plus(g))
  {
    var a, b, c, h := Sum(s.deposits), Sum(s1.deposits), Sum(s2.deposits), f.Plus(g);
    hide Sum;
    forall d: Denom ensures (s2.world.gov + a + h.spent)[d] == (s.world.gov + h.gained + c)[d] {
      assert (s1.world.gov + a + f.spent)[d] == (s.world.gov + f.gained + b)[d];
      assert (s2.world.gov + b + g.spent)[d] == (s1.world.gov + g.gained + c)[d];
    }
  }

  lemma BookedCompose(s: Store, s1: Store, s2: Store, f: Flow, g: Flow)
    requires Booked(s, s1, f) && Booked(s1, s2, g)
    ensures Booked(s, s2, f.Plus(g))
  {
    hide SupplyIsTotal;
    var x, y, z, h := s.world.supply, s1.world.supply, s2.world.supply, f.Plus(g);
    forall d: Denom ensures (z + h.burnt + h.taken)[d] == (x + h.minted)[d] {
      assert (y + f.burnt + f.taken)[d] == (x + f.minted)[d] && (z + g.burnt + g.taken)[d] == (y + g.minted)[d];
    }
  }

  /** Nothing has moved. */
  lemma NothingMoved(s: Store, s': Store)
    requires s'.world == s.world && s'.deposits == s.deposits
    ensures Accounts(s, s', STILL) && (SupplyIsTotal(s.world) ==> Booked(s, s', STILL))
  {
    hide Total;
    var none: Coins := multiset{};
    assert s.world.supply + none == s.world.supply;
  }

  /** The gov account goes on covering the deposits exactly if what it spent leaves room for those it had. */
  lemma SolventAfterIff(s: Store, s': Store, f: Flow)
    requires Accounts(s, s', f)
    ensures Solvent(s') <==> Sum(s.deposits) + f.spent <= s.world.gov + f.gained
  {
    var a, b := Sum(s.deposits), Sum(s'.deposits);
    hide Sum;
    forall d: Denom ensures b[d] <= s'.world.gov[d] <==> (a + f.spent)[d] <= (s.world.gov + f.gained)[d] {
      assert (s'.world.gov + a + f.spent)[d] == (s.world.gov + f.gained + b)[d];
    }
    if Solvent(s') {
      forall d: Denom ensures (a + f.spent)[d] <= (s.world.gov + f.gained)[d] { assert b[d] <= s'.world.gov[d]; }
    }
    if a + f.spent <= s.world.gov + f.gained {
      forall d: Denom ensures b[d] <= s'.world.gov[d] { assert (a + f.spent)[d] <= (s.world.gov + f.gained)[d]; }
    }
  }

  /** Settling pays every depositor its own deposit, or nobody if the deposits are burnt; then the supply falls by them. */
  lemma SettlePays(s: Store, id: nat, burn: bool)
    requires !Short(s, id)
    ensures var s', paid := SettleDeposits(s, id, burn), Sum(OfProposal(s.deposits, id));
            && (forall a :: Get(s'.world.accounts, a) ==
                            Get(s.world.accounts, a) + if burn then multiset{} else Get(s.deposits, DKey(id, a)))
            && s'.world.gov == s.world.gov - paid && s'.world.kv == s.world.kv
            && s'.world.supply == (if burn then s.world.supply - paid else s.world.supply)
            && s'.deposits == Without(s.deposits, id) && s'.halted == s.halted
  {
    if !burn { RefundExact(s, id); }
    hide Sum, PayBack, OfProposal, Without, Get;
  }

  /** Deposits of total owed were settled: that flow is the deposits burnt, or nothing. */
  function SettleFlow(owed: Coins, burn: bool): Flow {
    if burn then STILL.(burnt := owed) else STILL
  }

  lemma SettledFlow(s: Store, s': Store, owed: Coins, burn: bool)
    requires s'.world.gov + owed == s.world.gov && Sum(s'.deposits) + owed == Sum(s.deposits)
    ensures Accounts(s, s', SettleFlow(owed, burn))
    ensures SupplyIsTotal(s.world) && SupplyIsTotal(s'.world)
            && s'.world.supply + (if burn then owed else multiset{}) == s.world.supply ==>
              Booked(s, s', SettleFlow(owed, burn))
  {
    var a, b, f := Sum(s.deposits), Sum(s'.deposits), SettleFlow(owed, burn);
    hide Sum, SupplyIsTotal;
    forall d: Denom ensures (s'.world.gov + a + f.spent)[d] == (s.world.gov + f.gained + b)[d] {
      assert (s'.world.gov + owed)[d] == s.world.gov[d] && (b + owed)[d] == a[d];
    }
    var none: Coins := multiset{};
    assert s.world.supply + none == s.world.supply && s'.world.supply + f.burnt + none == s'.world.supply + f.burnt;
  }
}
