/**
 The v3 upgrade's conversion of community-pool and treasury funds to photons
 (app/upgrades/v3/upgrades.go) on a bank of balances, a supply and a fee pool: first as
 functions with their properties, then as the sequence of transfers on a mutable state.
 */
module UpgradeV3 {
  import opened Options
  import opened GovTypes
  import opened CoinSums
  import opened LegacyDec

  const PHOTON: Denom := "uphoton"
  const MAX_SUPPLY: nat := 1_000_000_000 * 1_000_000
  const FIFTY_PERCENT: Dec := 500_000_000_000_000_000
  const NINETY_PERCENT: Dec := 900_000_000_000_000_000

  const DISTRIBUTION: Address := "distribution module"
  const PHOTON_MODULE: Address := "photon module"
  const TREASURY: Address := "treasury DAO"

  /** sdk.DecCoins: raw amounts in units of 10^-18. */
  type DecCoins = map<Denom, nat>

  /** Balances, supply, and the fee pool's community pool, if it was ever set. */
  datatype Bank = Bank(balances: map<Address, Coins>, supply: Coins, pool: Option<DecCoins>)

  datatype UpgradeError = BadDistribution | ShortBalance

  datatype Outcome = Converted(bank: Bank) | Aborted(error: UpgradeError) | Panicked

  function Coin(d: Denom, n: nat): Coins {
    multiset{}[d := n]
  }

  function AmountOf(p: DecCoins, d: Denom): nat {
    if d in p then p[d] else 0
  }

  function BalanceOf(b: Bank, a: Address): Coins {
    Get(b.balances, a)
  }

  // ---------------------------------------------------------------- the bank

  function Send(b: Bank, from: Address, to: Address, c: Coins): Option<Bank> {
    if c <= BalanceOf(b, from) then
      var less := b.balances[from := Get(b.balances, from) - c];
      Some(b.(balances := less[to := Get(less, to) + c]))
    else None
  }

  function Mint(b: Bank, to: Address, c: Coins): Bank {
    b.(balances := b.balances[to := Get(b.balances, to) + c], supply := b.supply + c)
  }

  function Burn(b: Bank, from: Address, c: Coins): Option<Bank> {
    if c <= BalanceOf(b, from)
    then Some(b.(balances := b.balances[from := Get(b.balances, from) - c], supply := b.supply - c))
    else None
  }

  // ---------------------------------------------------------------- the conversions

  /** PhotonConversionRate; None where the keeper panics. */
  function ConversionRate(bondSupply: nat, photonSupply: nat): Option<Dec> {
    var remaining := FromInt(MAX_SUPPLY) - FromInt(photonSupply);
    if remaining < 0 then Some(0)
    else if bondSupply == 0 then None
    else Some(Quo(remaining, FromInt(bondSupply)))
  }

  /** sendCommunityPoolFundsToModuleAccount, for one coin. */
  function SendFromPool(b: Bank, d: Denom, n: nat, receiver: Address): Outcome {
    if b.pool.None? then Converted(b)
    else if AmountOf(b.pool.value, d) < n * ONE then Aborted(BadDistribution)
    else
      match Send(b, DISTRIBUTION, receiver, Coin(d, n))
      case None => Aborted(ShortBalance)
      case Some(b1) => Converted(b1.(pool := Some(b.pool.value[d := AmountOf(b.pool.value, d) - n * ONE])))
  }

  /** FundCommunityPool, for one coin. */
  function FundPool(b: Bank, d: Denom, n: nat, sender: Address): Outcome {
    match Send(b, sender, DISTRIBUTION, Coin(d, n))
    case None => Aborted(ShortBalance)
    case Some(b1) =>
      var pool := if b.pool.Some? then b.pool.value else map[];
      Converted(b1.(pool := Some(pool[d := AmountOf(pool, d) + n * ONE])))
  }

  /** The amounts of a conversion: what is burnt, and what is minted for it. */
  function PoolShare(amount: nat): (n: int)
    ensures n >= 0
  {
    TruncateInt(Mul(amount, FIFTY_PERCENT))
  }

  function TreasuryShare(amount: nat): (n: int)
    ensures n >= 0
  {
    TruncateInt(Mul(FromInt(amount), NINETY_PERCENT))
  }

  /** What is minted for n bond coins; the pool's conversion truncates, the treasury's rounds. */
  function PoolMint(n: nat, rate: nat): (m: int)
    ensures m >= 0
  {
    TruncateInt(Mul(FromInt(n), rate))
  }

  function TreasuryMint(n: nat, rate: nat): (m: int)
    ensures m >= 0
  {
    RoundInt(Mul(FromInt(n), rate))
  }

  function ConvertPool(b: Bank, bond: Denom): Outcome {
    if b.pool.None? || AmountOf(b.pool.value, bond) == 0 then Converted(b)
    else
      var n := PoolShare(AmountOf(b.pool.value, bond));
      match SendFromPool(b, bond, n, PHOTON_MODULE)
      case Aborted(e) => Aborted(e)
      case Panicked => Panicked
      case Converted(b1) =>
        match ConversionRate(b1.supply[bond], b1.supply[PHOTON])
        case None => Panicked
        case Some(rate) =>
          RateNat(b1.supply[bond], b1.supply[PHOTON]);
          var m := PoolMint(n, rate);
          match Burn(Mint(b1, PHOTON_MODULE, Coin(PHOTON, m)), PHOTON_MODULE, Coin(bond, n))
          case None => Aborted(ShortBalance)
          case Some(b2) => FundPool(b2, PHOTON, m, PHOTON_MODULE)
  }

  function ConvertTreasury(b: Bank, bond: Denom): Outcome {
    var balance := BalanceOf(b, TREASURY)[bond];
    if balance == 0 then Converted(b)
    else
      var n := TreasuryShare(balance);
      match Send(b, TREASURY, PHOTON_MODULE, Coin(bond, n))
      case None => Aborted(ShortBalance)
      case Some(b1) =>
        match ConversionRate(b1.supply[bond], b1.supply[PHOTON])
        case None => Panicked
        case Some(rate) =>
          RateNat(b1.supply[bond], b1.supply[PHOTON]);
          var m := TreasuryMint(n, rate);
          match Burn(Mint(b1, PHOTON_MODULE, Coin(PHOTON, m)), PHOTON_MODULE, Coin(bond, n))
          case None => Aborted(ShortBalance)
          case Some(b2) =>
            match Send(b2, PHOTON_MODULE, TREASURY, Coin(PHOTON, m))
            case None => Aborted(ShortBalance)
            case Some(b3) => Converted(b3)
  }

  /** convertFundsToPhoton. */
  function ConvertFunds(b: Bank, bond: Denom): Outcome {
    match ConvertPool(b, bond)
    case Converted(b1) => ConvertTreasury(b1, bond)
    case other => other
  }

  /** A conversion rate is not negative, so neither is what is minted. */
  lemma RateNat(bondSupply: nat, photonSupply: nat)
    ensures var r := ConversionRate(bondSupply, photonSupply); r.Some? ==> r.value >= 0
  {
    if bondSupply > 0 && photonSupply <= MAX_SUPPLY {
      QuoNat(FromInt(MAX_SUPPLY) - FromInt(photonSupply), FromInt(bondSupply));
    }
  }

  // ---------------------------------------------------------------- the bank's laws

  /** The supply is the sum of all balances. */
  ghost predicate Books(b: Bank) {
    b.supply == Sum(b.balances)
  }

  /** The distribution account holds what the community pool promises. */
  predicate Covered(b: Bank) {
    b.pool.Some? ==> forall d | d in b.pool.value :: b.pool.value[d] <= BalanceOf(b, DISTRIBUTION)[d] * ONE
  }

  lemma SumSet(m: map<Address, Coins>, a: Address, c: Coins)
    ensures Sum(m[a := c]) + Get(m, a) == Sum(m) + c
  {
    SumUpdate(m, a, c);
    if a in m { SumRemove(m, a); } else { assert m - {a} == m; }
    hide Sum;
    var rest := Sum(m - {a});
    assert (c + rest) + Get(m, a) == (Get(m, a) + rest) + c;
  }

  lemma Cancel(x: Coins, y: Coins, c: Coins)
    requires x + c == y + c
    ensures x == y
  {
    forall d: Denom ensures x[d] == y[d] {
      assert (x + c)[d] == (y + c)[d];
    }
  }

  /** What a balance change by less and more does to the sum. */
  lemma SumMoves(m: map<Address, Coins>, a: Address, c: Coins)
    ensures Sum(m[a := Get(m, a) + c]) == Sum(m) + c
    ensures c <= Get(m, a) ==> Sum(m[a := Get(m, a) - c]) == Sum(m) - c && c <= Sum(m)
  {
    SumSet(m, a, Get(m, a) + c);
    SumSet(m, a, Get(m, a) - c);
    hide Sum;
    var sum, up, down, x := Sum(m), Sum(m[a := Get(m, a) + c]), Sum(m[a := Get(m, a) - c]), Get(m, a);
    assert sum + (x + c) == (sum + c) + x;
    Cancel(up, sum + c, x);
    if c <= x {
      forall d: Denom ensures down[d] + c[d] == sum[d] {
        assert (down + x)[d] == (sum + (x - c))[d];
      }
      assert down + c == sum;
    }
  }

  /** A transfer between two accounts: succeeds exactly when the sender has the coins, and touches no one else. */
  lemma SendExact(b: Bank, from: Address, to: Address, c: Coins)
    requires from != to
    ensures Send(b, from, to, c).Some? <==> c <= BalanceOf(b, from)
    ensures Send(b, from, to, c).Some? ==>
            var b' := Send(b, from, to, c).value;
            && BalanceOf(b', from) == BalanceOf(b, from) - c && BalanceOf(b', to) == BalanceOf(b, to) + c
            && (forall a | a != from && a != to :: BalanceOf(b', a) == BalanceOf(b, a))
            && b'.supply == b.supply && b'.pool == b.pool && (Books(b) ==> Books(b'))
  {
    hide Books;
    if c <= BalanceOf(b, from) && Books(b) { SendBooks(b, from, to, c); }
    hide Sum;
    SendBalances(b, from, to, c);
    hide Send, BalanceOf;
  }

  lemma SendBalances(b: Bank, from: Address, to: Address, c: Coins)
    requires from != to
    ensures Send(b, from, to, c).Some? <==> c <= BalanceOf(b, from)
    ensures Send(b, from, to, c).Some? ==>
            var b' := Send(b, from, to, c).value;
            && BalanceOf(b', from) == BalanceOf(b, from) - c && BalanceOf(b', to) == BalanceOf(b, to) + c
            && (forall a | a != from && a != to :: BalanceOf(b', a) == BalanceOf(b, a))
            && b'.supply == b.supply && b'.pool == b.pool
  {
  }

  lemma SendBooks(b: Bank, from: Address, to: Address, c: Coins)
    requires from != to && c <= BalanceOf(b, from) && Books(b)
    ensures Books(Send(b, from, to, c).value)
  {
    SumMoves(b.balances, from, c);
    SumMoves(b.balances[from := Get(b.balances, from) - c], to, c);
    hide Sum;
    assert (Sum(b.balances) - c) + c == Sum(b.balances);
  }

  lemma MintExact(b: Bank, to: Address, c: Coins)
    ensures var b' := Mint(b, to, c);
            && BalanceOf(b', to) == BalanceOf(b, to) + c
            && (forall a | a != to :: BalanceOf(b', a) == BalanceOf(b, a))
            && b'.supply == b.supply + c && b'.pool == b.pool && (Books(b) ==> Books(b'))
  {
    SumMoves(b.balances, to, c);
    hide Sum;
  }

  lemma BurnExact(b: Bank, from: Address, c: Coins)
    ensures Burn(b, from, c).Some? <==> c <= BalanceOf(b, from)
    ensures Burn(b, from, c).Some? ==>
            var b' := Burn(b, from, c).value;
            && BalanceOf(b', from) == BalanceOf(b, from) - c
            && (forall a | a != from :: BalanceOf(b', a) == BalanceOf(b, a))
            && b'.supply == b.supply - c && b'.pool == b.pool && (Books(b) ==> Books(b'))
  {
    SumMoves(b.balances, from, c);
    hide Sum;
  }

  /** Nobody holds more than the supply. */
  lemma HeldIsSupplied(b: Bank, a: Address)
    requires Books(b)
    ensures BalanceOf(b, a) <= b.supply
  {
    SumMoves(b.balances, a, BalanceOf(b, a));
    hide Sum;
  }

  // ---------------------------------------------------------------- the shares

  /** Half of the pool, truncated; only an odd last decimal digit can be rounded up, never beyond the pool. */
  lemma PoolShareExact(amount: nat)
    ensures var n := PoolShare(amount);
            n == (amount + 1) / 2_000_000_000_000_000_000 && n * 1_000_000_000_000_000_000 <= amount
  {
    var x: nat := amount * FIFTY_PERCENT;
    ChopIsNearestEven(x, Chop(x));
    var h := Chop(x);
    DivBound(h, ONE);
  }

  /** Nine tenths of an integer balance, rounded down. */
  lemma TreasuryShareExact(amount: nat)
    ensures TreasuryShare(amount) == amount * 9 / 10 && TreasuryShare(amount) <= amount
  {
    assert FromInt(amount) * NINETY_PERCENT == (amount * NINETY_PERCENT) * ONE;
    ChopExact(amount * NINETY_PERCENT);
    DivBound(amount * 9, 10);
    DivBound(amount * NINETY_PERCENT, ONE);
  }

  // ---------------------------------------------------------------- the rate

  /** The rate is what is left to mint over the bond supply, to within one unit of the last decimal. */
  predicate RateFor(bondSupply: nat, photonSupply: nat, rate: nat) {
    if photonSupply > 1_000_000_000_000_000 then rate == 0
    else
      && bondSupply > 0
      && Rounds((1_000_000_000_000_000 - photonSupply) * 1_000_000_000_000_000_000_000_000_000_000_000_000_000_000_000_000_000_000
                  / (bondSupply * 1_000_000_000_000_000_000), rate)
      && 0 - bondSupply <= rate * bondSupply - (1_000_000_000_000_000 - photonSupply) * 1_000_000_000_000_000_000 <= bondSupply
  }

  /** The keeper panics exactly without a bond supply, unless the maximum is exceeded; otherwise the rate is as above. */
  lemma RateNear(bondSupply: nat, photonSupply: nat)
    ensures var r := ConversionRate(bondSupply, photonSupply);
            && (r.None? <==> bondSupply == 0 && photonSupply <= 1_000_000_000_000_000)
            && (r.Some? ==> r.value >= 0 && RateFor(bondSupply, photonSupply, r.value))
  {
    RateNat(bondSupply, photonSupply);
    if photonSupply <= MAX_SUPPLY && bondSupply > 0 {
      RateRounds(MAX_SUPPLY - photonSupply, bondSupply);
      RateBound(MAX_SUPPLY - photonSupply, bondSupply);
      hide Quo, Rounds;
    }
  }

  lemma RateRounds(left: nat, bonds: nat)
    requires bonds > 0
    ensures Rounds(left * 1_000_000_000_000_000_000_000_000_000_000_000_000_000_000_000_000_000_000 / (bonds * ONE),
                   Quo(left * ONE, bonds * ONE))
  {
    hide Quo, Rounds;
    QuoIsNearestEven(left * ONE, bonds * ONE, Quo(left * ONE, bonds * ONE));
    assert left * ONE * 1_000_000_000_000_000_000_000_000_000_000_000_000 ==
           left * 1_000_000_000_000_000_000_000_000_000_000_000_000_000_000_000_000_000_000;
  }

  lemma RateBound(left: nat, bonds: nat)
    requires bonds > 0
    ensures 0 - bonds <= Quo(left * ONE, bonds * ONE) * bonds - left * ONE <= bonds
  {
    hide Quo;
    QuoNear(left * ONE, bonds * ONE);
    var rate := Quo(left * ONE, bonds * ONE);
    assert rate * (bonds * ONE) == (rate * bonds) * ONE;
    assert 0 - bonds * ONE <= (rate * bonds - left * ONE) * ONE <= bonds * ONE;
  }

  /** The pool's photons: the amount times the rate, rounded down. */
  predicate RoundedDown(n: nat, m: nat, rate: nat) {
    m * 1_000_000_000_000_000_000 <= n * rate < (m + 1) * 1_000_000_000_000_000_000
  }

  /** The treasury's photons: the amount times the rate, rounded to the nearest, and to the even one of two. */
  predicate RoundedNear(n: nat, m: nat, rate: nat) {
    Rounds(n * rate, m)
  }

  lemma MintNear(n: nat, rate: nat)
    ensures RoundedDown(n, PoolMint(n, rate), rate) && RoundedNear(n, TreasuryMint(n, rate), rate)
  {
    var x: nat := n * rate;
    assert FromInt(n) * rate == x * ONE;
    ChopExact(x);
    DivBound(x, ONE);
    ChopIsNearestEven(x, Chop(x));
  }

  // ---------------------------------------------------------------- the conversions are exact

  lemma CoinLe(d: Denom, n: nat, c: Coins)
    ensures Coin(d, n) <= c <==> n <= c[d]
  {
    if Coin(d, n) <= c { assert Coin(d, n)[d] <= c[d]; }
  }

  /** Minting photons and burning bond coins in the photon module. */
  lemma SwapExact(b: Bank, bond: Denom, n: nat, m: nat)
    requires Coin(bond, n) <= BalanceOf(b, PHOTON_MODULE)
    ensures var r := Burn(Mint(b, PHOTON_MODULE, Coin(PHOTON, m)), PHOTON_MODULE, Coin(bond, n));
            && r.Some?
            && BalanceOf(r.value, PHOTON_MODULE) == BalanceOf(b, PHOTON_MODULE) + Coin(PHOTON, m) - Coin(bond, n)
            && (forall a | a != PHOTON_MODULE :: BalanceOf(r.value, a) == BalanceOf(b, a))
            && r.value.supply == b.supply + Coin(PHOTON, m) - Coin(bond, n) && r.value.pool == b.pool
            && (Books(b) ==> Books(r.value))
  {
    MintExact(b, PHOTON_MODULE, Coin(PHOTON, m));
    BurnExact(Mint(b, PHOTON_MODULE, Coin(PHOTON, m)), PHOTON_MODULE, Coin(bond, n));
    hide Books, Mint, Burn, Coin, BalanceOf;
  }

  /** In and out of the photon module: what came in is burnt, what is minted goes out. */
  lemma PassThrough(p: Coins, x: Coins, y: Coins)
    ensures x <= p + x && y <= p + x + y - x && p + x + y - x - y == p
  {
  }

  /** A conversion's rate exists: someone holds bond coins, so their supply is positive. */
  lemma RateExists(b: Bank, bond: Denom, a: Address)
    requires Books(b) && BalanceOf(b, a)[bond] > 0
    ensures var r := ConversionRate(b.supply[bond], b.supply[PHOTON]);
            r.Some? && r.value >= 0 && RateFor(b.supply[bond], b.supply[PHOTON], r.value)
  {
    HeldIsSupplied(b, a);
    hide Books, ConversionRate, RateFor;
    assert b.supply[bond] > 0;
    RateNear(b.supply[bond], b.supply[PHOTON]);
  }

  /** What a conversion leaves: the books right, the photon module as it was, n bond coins burnt and m photons minted. */
  ghost predicate Swapped(b: Bank, b': Bank, bond: Denom, n: nat, m: nat, holder: Address) {
    && Books(b')
    && BalanceOf(b', PHOTON_MODULE) == BalanceOf(b, PHOTON_MODULE)
    && b'.supply == b.supply + Coin(PHOTON, m) - Coin(bond, n)
    && BalanceOf(b', holder) == BalanceOf(b, holder) - Coin(bond, n) + Coin(PHOTON, m)
    && Coin(bond, n) <= BalanceOf(b, holder)
    && forall a | a != holder && a != PHOTON_MODULE :: BalanceOf(b', a) == BalanceOf(b, a)
  }

  /** Taking n bond coins from holder to the photon module, swapping them, and giving back the photons. */
  lemma RoundTrip(b: Bank, bond: Denom, n: nat, m: nat, holder: Address) returns (b1: Bank, b2: Bank, b3: Bank)
    requires Books(b) && Coin(bond, n) <= BalanceOf(b, holder) && holder != PHOTON_MODULE
    ensures Send(b, holder, PHOTON_MODULE, Coin(bond, n)) == Some(b1)
    ensures Burn(Mint(b1, PHOTON_MODULE, Coin(PHOTON, m)), PHOTON_MODULE, Coin(bond, n)) == Some(b2)
    ensures Send(b2, PHOTON_MODULE, holder, Coin(PHOTON, m)) == Some(b3)
    ensures Swapped(b, b3, bond, n, m, holder)
    ensures b1.supply == b.supply && Books(b1) && b1.pool == b.pool && b2.pool == b.pool && b3.pool == b.pool
    ensures BalanceOf(b1, PHOTON_MODULE) == BalanceOf(b, PHOTON_MODULE) + Coin(bond, n)
  {
    hide Books, Send, Mint, Burn, Coin, BalanceOf;
    SendExact(b, holder, PHOTON_MODULE, Coin(bond, n));
    b1 := Send(b, holder, PHOTON_MODULE, Coin(bond, n)).value;
    PassThrough(BalanceOf(b, PHOTON_MODULE), Coin(bond, n), Coin(PHOTON, m));
    SwapExact(b1, bond, n, m);
    b2 := Burn(Mint(b1, PHOTON_MODULE, Coin(PHOTON, m)), PHOTON_MODULE, Coin(bond, n)).value;
    SendExact(b2, PHOTON_MODULE, holder, Coin(PHOTON, m));
    b3 := Send(b2, PHOTON_MODULE, holder, Coin(PHOTON, m)).value;
  }

  /**
   The treasury's conversion always succeeds: it burns nine tenths of the bond coins, rounded
   down, and gives the treasury the minted photons; nobody else is affected.
   */
  lemma TreasuryExact(b: Bank, bond: Denom) returns (n: nat, m: nat, rate: nat)
    requires Books(b)
    ensures n > 0 ==> RateFor(b.supply[bond], b.supply[PHOTON], rate)
    ensures RoundedNear(n, m, rate)
    ensures ConvertTreasury(b, bond).Converted?
    ensures n == BalanceOf(b, TREASURY)[bond] * 9 / 10
    ensures Swapped(b, ConvertTreasury(b, bond).bank, bond, n, m, TREASURY)
    ensures ConvertTreasury(b, bond).bank.pool == b.pool
  {
    hide Books, Send, Mint, Burn, Swapped, BalanceOf, ConversionRate, TreasuryMint, Coin, RateFor, RoundedNear, RoundedDown;
    var balance := BalanceOf(b, TREASURY)[bond];
    TreasuryShareExact(balance);
    n := TreasuryShare(balance);
    CoinLe(bond, n, BalanceOf(b, TREASURY));
    if balance == 0 {
      m, rate := 0, 0;
      NothingSwapped(b, bond, TREASURY);
      NothingMinted();
    } else {
      RateExists(b, bond, TREASURY);
      rate := ConversionRate(b.supply[bond], b.supply[PHOTON]).value;
      m := TreasuryMint(n, rate);
      MintNear(n, rate);
      hide TreasuryShare;
      var b1, b2, b3 := RoundTrip(b, bond, n, m, TREASURY);
    }
  }

  lemma NothingMinted()
    ensures RoundedNear(0, 0, 0) && RoundedDown(0, 0, 0)
  {
  }

  lemma NothingSwapped(b: Bank, bond: Denom, holder: Address)
    requires Books(b)
    ensures Swapped(b, b, bond, 0, 0, holder)
  {
    hide Books, BalanceOf;
    var none: Coins := multiset{};
    assert Coin(bond, 0) == none && Coin(PHOTON, 0) == none;
  }

  /** The community pool after a conversion, denom by denom. */
  ghost predicate PoolMoved(p: Option<DecCoins>, p': Option<DecCoins>, bond: Denom, n: nat, m: nat) {
    (p.None? && p' == p && n == 0 && m == 0) ||
    (p.Some? && p'.Some? &&
     forall d :: AmountOf(p'.value, d) + (if d == bond then n * 1_000_000_000_000_000_000 else 0) ==
                 AmountOf(p.value, d) + (if d == PHOTON then m * 1_000_000_000_000_000_000 else 0))
  }

  lemma StillCovered(b: Bank, b': Bank, bond: Denom, n: nat, m: nat)
    requires Covered(b) && Swapped(b, b', bond, n, m, DISTRIBUTION) && PoolMoved(b.pool, b'.pool, bond, n, m)
    ensures Covered(b')
  {
    hide Books, BalanceOf;
    if b'.pool.Some? {
      hide Coin;
      forall d | d in b'.pool.value ensures b'.pool.value[d] <= BalanceOf(b', DISTRIBUTION)[d] * ONE {
        CoverAt(BalanceOf(b, DISTRIBUTION), BalanceOf(b', DISTRIBUTION), b.pool.value, b'.pool.value, bond, n, m, d);
      }
    }
  }

  lemma CoverAt(held: Coins, held': Coins, p: DecCoins, p': DecCoins, bond: Denom, n: nat, m: nat, d: Denom)
    requires Coin(bond, n) <= held && held' == held - Coin(bond, n) + Coin(PHOTON, m)
    requires d in p ==> p[d] <= held[d] * ONE
    requires AmountOf(p', d) + (if d == bond then n * ONE else 0) == AmountOf(p, d) + (if d == PHOTON then m * ONE else 0)
    ensures AmountOf(p', d) <= held'[d] * ONE
  {
    CoinLe(bond, n, held);
    assert Coin(bond, n)[d] == if d == bond then n else 0;
    assert Coin(PHOTON, m)[d] == if d == PHOTON then m else 0;
    var x, y := Coin(bond, n)[d], Coin(PHOTON, m)[d];
    hide Coin, AmountOf;
    assert held'[d] == held[d] - x + y;
  }

  /**
   Sending from the community pool: a pool that was never set sends nothing; one that holds too
   little is refused before the account behind it is; otherwise the coins leave that account
   and the pool, for the receiver.
   */
  lemma SendFromPoolExact(b: Bank, d: Denom, n: nat, receiver: Address)
    requires receiver != DISTRIBUTION
    ensures var r := SendFromPool(b, d, n, receiver);
            if b.pool.None? then r == Converted(b)
            else if AmountOf(b.pool.value, d) < n * 1_000_000_000_000_000_000 then r == Aborted(BadDistribution)
            else if BalanceOf(b, DISTRIBUTION)[d] < n then r == Aborted(ShortBalance)
            else
              && r.Converted? && r.bank.pool.Some? && r.bank.supply == b.supply
              && BalanceOf(r.bank, DISTRIBUTION) == BalanceOf(b, DISTRIBUTION) - Coin(d, n)
              && BalanceOf(r.bank, receiver) == BalanceOf(b, receiver) + Coin(d, n)
              && (forall a | a != DISTRIBUTION && a != receiver :: BalanceOf(r.bank, a) == BalanceOf(b, a))
              && forall x :: AmountOf(r.bank.pool.value, x) + (if x == d then n * 1_000_000_000_000_000_000 else 0) ==
                             AmountOf(b.pool.value, x)
  {
    CoinLe(d, n, BalanceOf(b, DISTRIBUTION));
    SendExact(b, DISTRIBUTION, receiver, Coin(d, n));
    hide Send, Coin, Books, Sum;
  }

  lemma SendIgnoresPool(b: Bank, p: Option<DecCoins>, from: Address, to: Address, c: Coins)
    ensures Send(b.(pool := p), from, to, c) ==
            match Send(b, from, to, c) { case None => None case Some(x) => Some(x.(pool := p)) }
  {
  }

  lemma SwapIgnoresPool(b: Bank, p: Option<DecCoins>, bond: Denom, n: nat, m: nat)
    ensures Burn(Mint(b.(pool := p), PHOTON_MODULE, Coin(PHOTON, m)), PHOTON_MODULE, Coin(bond, n)) ==
            match Burn(Mint(b, PHOTON_MODULE, Coin(PHOTON, m)), PHOTON_MODULE, Coin(bond, n))
            { case None => None case Some(x) => Some(x.(pool := p)) }
  {
  }

  /** The conversion's steps, given the transfers they make. */
  lemma PoolSteps(b: Bank, bond: Denom, n: nat, m: nat, b1: Bank, b2: Bank, b3: Bank)
    requires b.pool.Some? && AmountOf(b.pool.value, bond) > 0
    requires n == PoolShare(AmountOf(b.pool.value, bond)) && n * ONE <= AmountOf(b.pool.value, bond)
    requires Send(b, DISTRIBUTION, PHOTON_MODULE, Coin(bond, n)) == Some(b1) && b1.supply == b.supply
    requires ConversionRate(b.supply[bond], b.supply[PHOTON]).Some?
    requires ConversionRate(b.supply[bond], b.supply[PHOTON]).value >= 0
    requires m == PoolMint(n, ConversionRate(b.supply[bond], b.supply[PHOTON]).value)
    requires Burn(Mint(b1, PHOTON_MODULE, Coin(PHOTON, m)), PHOTON_MODULE, Coin(bond, n)) == Some(b2)
    requires Send(b2, PHOTON_MODULE, DISTRIBUTION, Coin(PHOTON, m)) == Some(b3)
    ensures var p1 := b.pool.value[bond := AmountOf(b.pool.value, bond) - n * ONE];
            var p2 := p1[PHOTON := AmountOf(p1, PHOTON) + m * ONE];
            ConvertPool(b, bond) == Converted(b3.(pool := Some(p2)))
  {
    hide Books, Mint, Burn, Send, ConversionRate, PoolMint, PoolShare, Coin;
    var p1 := b.pool.value[bond := AmountOf(b.pool.value, bond) - n * ONE];
    SwapIgnoresPool(b1, Some(p1), bond, n, m);
    SendIgnoresPool(b2, Some(p1), PHOTON_MODULE, DISTRIBUTION, Coin(PHOTON, m));
    hide AmountOf;
  }

  lemma SwappedIgnoresPool(b: Bank, b': Bank, p: Option<DecCoins>, bond: Denom, n: nat, m: nat, holder: Address)
    requires Swapped(b, b', bond, n, m, holder)
    ensures Swapped(b, b'.(pool := p), bond, n, m, holder)
  {
  }

  /**
   The community pool's conversion always succeeds: it takes half of the pool's bond coins,
   burns them, and the pool gets the minted photons.  The distribution account goes on
   covering the pool; nobody else is affected.
   */
  lemma PoolExact(b: Bank, bond: Denom) returns (n: nat, m: nat, rate: nat)
    requires Books(b) && Covered(b)
    ensures n > 0 ==> RateFor(b.supply[bond], b.supply[PHOTON], rate)
    ensures RoundedDown(n, m, rate)
    ensures ConvertPool(b, bond).Converted?
    ensures var b' := ConvertPool(b, bond).bank;
            && Swapped(b, b', bond, n, m, DISTRIBUTION) && PoolMoved(b.pool, b'.pool, bond, n, m) && Covered(b')
    ensures var amount := if b.pool.Some? then AmountOf(b.pool.value, bond) else 0;
            n == (amount + 1) / 2_000_000_000_000_000_000
  {
    hide Books, Mint, Burn, Send, Swapped, BalanceOf, ConversionRate, PoolMint, PoolShare, Coin, RateFor, RoundedNear, RoundedDown;
    if b.pool.None? || AmountOf(b.pool.value, bond) == 0 {
      n, m, rate := 0, 0, 0;
      NothingSwapped(b, bond, DISTRIBUTION);
      NothingMinted();
    } else {
      var amount := AmountOf(b.pool.value, bond);
      PoolShareExact(amount);
      n := PoolShare(amount);
      CoinLe(bond, n, BalanceOf(b, DISTRIBUTION));
      RateExists(b, bond, DISTRIBUTION);
      rate := ConversionRate(b.supply[bond], b.supply[PHOTON]).value;
      m := PoolMint(n, rate);
      MintNear(n, rate);
      var b1, b2, b3 := RoundTrip(b, bond, n, m, DISTRIBUTION);
      var p1 := b.pool.value[bond := amount - n * ONE];
      var p2 := p1[PHOTON := AmountOf(p1, PHOTON) + m * ONE];
      PoolSteps(b, bond, n, m, b1, b2, b3);
      hide ConvertPool;
      SwappedIgnoresPool(b, b3, Some(p2), bond, n, m, DISTRIBUTION);
      StillCovered(b, b3.(pool := Some(p2)), bond, n, m);
    }
  }

  /** The supplies of the two denoms after a conversion. */
  lemma SwappedSupply(b: Bank, b': Bank, bond: Denom, n: nat, m: nat, holder: Address)
    requires Books(b) && Swapped(b, b', bond, n, m, holder) && bond != PHOTON
    ensures b'.supply[bond] + n == b.supply[bond] && b'.supply[PHOTON] == b.supply[PHOTON] + m
    ensures forall d | d != bond && d != PHOTON :: b'.supply[d] == b.supply[d]
  {
    hide Books, BalanceOf, Coin;
    HeldIsSupplied(b, holder);
    CoinLe(bond, n, b.supply);
    forall d: Denom
      ensures b'.supply[d] + (if d == bond then n else 0) == b.supply[d] + (if d == PHOTON then m else 0)
    {
      CoinAt(PHOTON, m, d);
      CoinAt(bond, n, d);
    }
  }

  lemma CoinAt(d: Denom, n: nat, x: Denom)
    ensures Coin(d, n)[x] == if x == d then n else 0
  {
  }

  lemma CoveredSame(b: Bank, b': Bank)
    requires Covered(b) && b'.pool == b.pool && BalanceOf(b', DISTRIBUTION) == BalanceOf(b, DISTRIBUTION)
    ensures Covered(b')
  {
  }

  /** What each conversion takes and gives: n1 and n2 bond coins for m1 and m2 photons. */
  datatype Amounts = Amounts(n1: nat, m1: nat, rate1: nat, n2: nat, m2: nat, rate2: nat)

  /**
   Both conversions together: they succeed, keep the books and the pool's cover, and leave the
   photon module and everybody else as they were.  The pool gives half of its bond coins and the
   treasury nine tenths of its own, both are burnt, and each gets its photons at the rate of its
   conversion; by exactly these amounts the supplies of the two denoms change.
   */
  lemma UpgradeExact(b: Bank, bond: Denom) returns (x: Amounts)
    requires Books(b) && Covered(b)
    ensures ConvertFunds(b, bond).Converted?
    ensures var b', supply1 := ConvertFunds(b, bond).bank, b.supply + Coin(PHOTON, x.m1) - Coin(bond, x.n1);
            && Books(b') && Covered(b') && BalanceOf(b', PHOTON_MODULE) == BalanceOf(b, PHOTON_MODULE)
            && (forall a | a != DISTRIBUTION && a != TREASURY :: BalanceOf(b', a) == BalanceOf(b, a))
            && BalanceOf(b', DISTRIBUTION) == BalanceOf(b, DISTRIBUTION) - Coin(bond, x.n1) + Coin(PHOTON, x.m1)
            && BalanceOf(b', TREASURY) == BalanceOf(b, TREASURY) - Coin(bond, x.n2) + Coin(PHOTON, x.m2)
            && b'.supply == supply1 + Coin(PHOTON, x.m2) - Coin(bond, x.n2)
            && (x.n1 > 0 ==> RateFor(b.supply[bond], b.supply[PHOTON], x.rate1)) && RoundedDown(x.n1, x.m1, x.rate1)
            && (x.n2 > 0 ==> RateFor(supply1[bond], supply1[PHOTON], x.rate2)) && RoundedNear(x.n2, x.m2, x.rate2)
    ensures var amount := if b.pool.Some? then AmountOf(b.pool.value, bond) else 0;
            x.n1 == (amount + 1) / 2_000_000_000_000_000_000
    ensures x.n2 == BalanceOf(b, TREASURY)[bond] * 9 / 10
    ensures var b' := ConvertFunds(b, bond).bank;
            bond != PHOTON ==>
              && b'.supply[bond] + x.n1 + x.n2 == b.supply[bond]
              && b'.supply[PHOTON] == b.supply[PHOTON] + x.m1 + x.m2
              && forall d | d != bond && d != PHOTON :: b'.supply[d] == b.supply[d]
  {
    hide ConvertPool, ConvertTreasury, Books, BalanceOf, Coin, PoolMoved, RateFor, RoundedDown, RoundedNear, Covered, AmountOf;
    var n1, m1, rate1 := PoolExact(b, bond);
    var b1 := ConvertPool(b, bond).bank;
    var n2, m2, rate2 := TreasuryExact(b1, bond);
    var b2 := ConvertFunds(b, bond).bank;
    x := Amounts(n1, m1, rate1, n2, m2, rate2);
    CoveredSame(b1, b2);
    if bond != PHOTON {
      SwappedSupply(b, b1, bond, n1, m1, DISTRIBUTION);
      SwappedSupply(b1, b2, bond, n2, m2, TREASURY);
    }
  }

  // ---------------------------------------------------------------- the state the upgrade changes in place

  class App {
    var balances: map<Address, Coins>
    var supply: Coins
    var pool: Option<DecCoins>

    function Abs(): Bank
      reads this
    {
      Bank(balances, supply, pool)
    }

    constructor (b: Bank)
      ensures Abs() == b
    {
      balances, supply, pool := b.balances, b.supply, b.pool;
    }

    method SendCoins(from: Address, to: Address, c: Coins) returns (ok: bool)
      modifies `balances
      ensures ok <==> Send(old(Abs()), from, to, c).Some?
      ensures ok ==> Abs() == Send(old(Abs()), from, to, c).value
      ensures !ok ==> Abs() == old(Abs())
    {
      ok := c <= Get(balances, from);
      if ok {
        balances := balances[from := Get(balances, from) - c];
        balances := balances[to := Get(balances, to) + c];
      }
    }

    method MintCoins(to: Address, c: Coins)
      modifies `balances, `supply
      ensures Abs() == Mint(old(Abs()), to, c)
    {
      balances := balances[to := Get(balances, to) + c];
      supply := supply + c;
    }

    method BurnCoins(from: Address, c: Coins) returns (ok: bool)
      modifies `balances, `supply
      ensures ok <==> Burn(old(Abs()), from, c).Some?
      ensures ok ==> Abs() == Burn(old(Abs()), from, c).value
    {
      ok := c <= Get(balances, from);
      if ok {
        balances := balances[from := Get(balances, from) - c];
        supply := supply - c;
      }
    }

    /** The pool is reduced in a copy, which is stored only after the transfer. */
    method SendCommunityPoolFunds(d: Denom, n: nat, receiver: Address) returns (err: Option<UpgradeError>)
      modifies `balances, `pool
      ensures match SendFromPool(old(Abs()), d, n, receiver)
              case Converted(b) => err == None && Abs() == b
              case Aborted(e) => err == Some(e)
              case Panicked => false
    {
      hide Coin, Send;
      if pool.None? { return None; }
      var has := AmountOf(pool.value, d);
      if has < n * ONE { return Some(BadDistribution); }
      var newPool := pool.value[d := has - n * ONE];
      var ok := SendCoins(DISTRIBUTION, receiver, Coin(d, n));
      if !ok { return Some(ShortBalance); }
      pool := Some(newPool);
      return None;
    }

    method FundCommunityPool(d: Denom, n: nat, sender: Address) returns (err: Option<UpgradeError>)
      modifies `balances, `pool
      ensures match FundPool(old(Abs()), d, n, sender)
              case Converted(b) => err == None && Abs() == b
              case Aborted(e) => err == Some(e)
              case Panicked => false
    {
      hide Coin, Send;
      var ok := SendCoins(sender, DISTRIBUTION, Coin(d, n));
      if !ok { return Some(ShortBalance); }
      var p: DecCoins := if pool.Some? then pool.value else map[];
      pool := Some(p[d := AmountOf(p, d) + n * ONE]);
      return None;
    }

    method ConvertCommunityPoolFunds(bond: Denom) returns (r: Outcome)
      modifies this
      ensures r == ConvertPool(old(Abs()), bond)
      ensures r.Converted? ==> r.bank == Abs()
    {
      hide PoolShare, PoolMint, ConversionRate;
      if pool.None? { return Converted(Abs()); }
      var amount := AmountOf(pool.value, bond);
      if amount == 0 { return Converted(Abs()); }
      var n := PoolShare(amount);
      var err := SendCommunityPoolFunds(bond, n, PHOTON_MODULE);
      if err.Some? { return Aborted(err.value); }
      var rate := ConversionRate(supply[bond], supply[PHOTON]);
      if rate.None? { return Panicked; }
      RateNat(supply[bond], supply[PHOTON]);
      var m := PoolMint(n, rate.value);
      MintCoins(PHOTON_MODULE, Coin(PHOTON, m));
      var ok := BurnCoins(PHOTON_MODULE, Coin(bond, n));
      if !ok { return Aborted(ShortBalance); }
      err := FundCommunityPool(PHOTON, m, PHOTON_MODULE);
      if err.Some? { return Aborted(err.value); }
      return Converted(Abs());
    }

    method ConvertTreasuryFunds(bond: Denom) returns (r: Outcome)
      modifies this
      ensures r == ConvertTreasury(old(Abs()), bond)
      ensures r.Converted? ==> r.bank == Abs()
    {
      hide TreasuryShare, TreasuryMint, ConversionRate, Send, Mint, Burn, Coin;
      var balance := Get(balances, TREASURY)[bond];
      if balance == 0 { return Converted(Abs()); }
      var n := TreasuryShare(balance);
      var ok := SendCoins(TREASURY, PHOTON_MODULE, Coin(bond, n));
      if !ok { return Aborted(ShortBalance); }
      var rate := ConversionRate(supply[bond], supply[PHOTON]);
      if rate.None? { return Panicked; }
      RateNat(supply[bond], supply[PHOTON]);
      var m := TreasuryMint(n, rate.value);
      MintCoins(PHOTON_MODULE, Coin(PHOTON, m));
      ok := BurnCoins(PHOTON_MODULE, Coin(bond, n));
      if !ok { return Aborted(ShortBalance); }
      ok := SendCoins(PHOTON_MODULE, TREASURY, Coin(PHOTON, m));
      if !ok { return Aborted(ShortBalance); }
      return Converted(Abs());
    }

    /** convertFundsToPhoton; on sound books it always succeeds. */
    method ConvertFundsToPhoton(bond: Denom) returns (r: Outcome)
      modifies this
      ensures r == ConvertFunds(old(Abs()), bond)
      ensures r.Converted? ==> r.bank == Abs()
      ensures old(Books(Abs()) && Covered(Abs())) ==> r.Converted? && Books(Abs()) && Covered(Abs())
    {
      hide ConvertPool, ConvertTreasury, Books, Covered, BalanceOf;
      ghost var sound := Books(Abs()) && Covered(Abs());
      if sound { var _ := UpgradeExact(Abs(), bond); }
      r := ConvertCommunityPoolFunds(bond);
      if !r.Converted? { return r; }
      r := ConvertTreasuryFunds(bond);
    }
  }
}
