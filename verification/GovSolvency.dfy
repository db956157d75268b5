/**
 The gov account and the supply over whole runs.  As long as no block panics, the account holds
 the stored deposits and what it gained otherwise, less what it spent, and the supply has fallen
 by the deposits burnt; both follow from what each transaction and each block does to coins.
 */
module GovSolvency {
  import opened Options
  import opened GovTypes
  import opened CoinSums
  import opened GovQueue
  import opened GovStore
  import opened GovEndBlock
  import opened GovInvariants
  import opened GovBlock
  import opened GovScan
  import opened GovMoney
  import opened GovHalts
  import opened GovFlows
  import opened GovTx
  import opened CoreDaos
  import opened GovSteps
  import opened GovRuns

  // ---------------------------------------------------------------- a panic stays

  lemma DepositSticky(s: Store, env: Env, now: Time, id: nat, who: Address, amount: Coins, skip: bool)
    requires s.halted
    ensures var r := Deposit(s, env, now, id, who, amount, skip); r.Done? ==> r.store.halted
  {
    hide MeetsDeposit, RatioChecked, MeetsRatio, RequiredDeposit, Pay, AddAt;
  }

  lemma VetoSticky(s: Store, env: Env, now: Time, id: nat, burn: bool)
    requires s.halted && id in s.proposals
    ensures VetoStore(s, env, now, id, burn).halted
  {
    SettleShape(s, id, burn);
    hide SettleDeposits, Short, Without;
  }

  lemma ApplySticky(s: Store, env: Env, now: Time, tx: Tx)
    requires s.halted
    ensures Apply(s, env, now, tx).halted
  {
    hide Deposit, VetoStore, Allowed, RequiredDeposit;
    match tx
    case Submission(messages, _, proposer, amount) =>
      DepositSticky(Submit(s, now, messages), env, now, s.nextId, proposer, amount, true);
    case Depositing(id, who, amount) => DepositSticky(s, env, now, id, who, amount, false);
    case Vetoing(_, id, burn) => if id in s.proposals { VetoSticky(s, env, now, id, burn); }
    case _ =>
  }

  lemma {:induction false} ApplyAllSticky(s: Store, env: Env, now: Time, txs: seq<Tx>)
    requires s.halted
    ensures ApplyAll(s, env, now, txs).halted
    decreases |txs|
  {
    hide Apply;
    if txs != [] {
      ApplySticky(s, env, now, txs[0]);
      ApplyAllSticky(Apply(s, env, now, txs[0]), env, now, txs[1..]);
    }
  }

  /** A block that ends without a panic began without one, and so did its EndBlock. */
  lemma StepNotHalted(s: Store, env: Env, b: Block)
    requires !Step(s, env, b).halted
    ensures !s.halted && !ApplyAll(s, env, b.time, b.txs).halted
  {
    hide ApplyAll, EndBlock;
    PassesNotHalted(ApplyAll(s, env, b.time, b.txs), env, b.time);
    if s.halted { ApplyAllSticky(s, env, b.time, b.txs); }
  }

  lemma {:induction false} RunNotHalted(s: Store, env: Env, bs: seq<Block>)
    requires !Run(s, env, bs).halted
    ensures !s.halted
    decreases |bs|
  {
    hide Step;
    if bs != [] {
      RunNotHalted(Step(s, env, bs[0]), env, bs[1..]);
      StepNotHalted(s, env, bs[0]);
    }
  }

  // ---------------------------------------------------------------- transactions

  /** What a transaction does to coins: a veto settles deposits, and another module moves its own. */
  ghost function TxFlow(s: Store, env: Env, now: Time, tx: Tx): Flow {
    match tx
    case Vetoing(vetoer, id, burn) =>
      if Veto(s, env, now, vetoer, id, burn).Done? && !VetoStore(s, env, now, id, burn).halted
      then SettleFlow(s.proposals[id].totalDeposit, burn)
      else STILL
    case Outside(w) => if Allowed(s.world, w) then WorldFlow(s.world, w) else STILL
    case _ => STILL
  }

  /** The flow f accounts for the gov account, and for the supply if the books were right and are kept. */
  ghost predicate Explains(s: Store, s': Store, f: Flow, kept: bool) {
    Accounts(s, s', f) && (kept && SupplyIsTotal(s.world) ==> Booked(s, s', f))
  }

  lemma Unmoved(s: Store, s': Store)
    requires s'.world == s.world && s'.deposits == s.deposits
    ensures Explains(s, s', STILL, true)
  {
    hide Accounts, Booked, SupplyIsTotal;
    NothingMoved(s, s');
  }

  lemma ExplainsDeposit(s: Store, env: Env, now: Time, id: nat, who: Address, amount: Coins, skip: bool)
    ensures var r := Deposit(s, env, now, id, who, amount, skip); r.Done? ==> Explains(s, r.store, STILL, true)
  {
    hide RatioChecked, MeetsRatio, Deposited, Total, Sum, Accounts, Booked, SupplyIsTotal;
    if Deposit(s, env, now, id, who, amount, skip).Done? { DepositedExact(s, env, now, id, who, amount); }
  }

  lemma ExplainsSubmission(s: Store, env: Env, now: Time, messages: seq<Option<Message>>, minInitial: Coins,
                           proposer: Address, amount: Coins)
    ensures var r := SubmitAndDeposit(s, env, now, messages, minInitial, proposer, amount);
            r.Done? ==> Explains(s, r.store, STILL, true)
  {
    var s1 := Submit(s, now, messages);
    ExplainsDeposit(s1, env, now, s.nextId, proposer, amount, true);
    hide Deposit, Accounts, Booked, SupplyIsTotal;
    var r := SubmitAndDeposit(s, env, now, messages, minInitial, proposer, amount);
    if r.Done? { SameCoins(s1, s, r.store, r.store, STILL); }
  }

  lemma ExplainsOutside(s: Store, w: World)
    requires Allowed(s.world, w)
    ensures Explains(s, s.(world := w), WorldFlow(s.world, w), true)
  {
    hide Accounts, Booked, SupplyIsTotal, WorldFlow;
    WorldMoved(s, s.(world := w));
  }

  lemma ExplainsVeto(s: Store, env: Env, now: Time, vetoer: Address, id: nat, burn: bool)
    requires Inv(s) && !s.halted
    ensures var tx := Vetoing(vetoer, id, burn); Explains(s, Apply(s, env, now, tx), TxFlow(s, env, now, tx), true)
  {
    hide Inv, VetoStore, Accounts, Booked, SupplyIsTotal, SettleFlow, Explains;
    var r := Veto(s, env, now, vetoer, id, burn);
    if r.Done? && !r.store.halted {
      VetoMoney(s, env, now, id, burn);
      ExplainsFrom(s, r.store, SettleFlow(s.proposals[id].totalDeposit, burn));
    } else {
      Unmoved(s, s);
    }
  }

  lemma ExplainsFrom(s: Store, s': Store, f: Flow)
    requires Accounts(s, s', f) && (SupplyIsTotal(s.world) ==> Booked(s, s', f))
    ensures Explains(s, s', f, true)
  {
  }

  lemma ApplyFlow(s: Store, env: Env, now: Time, tx: Tx)
    requires Inv(s) && !s.halted
    ensures Explains(s, Apply(s, env, now, tx), TxFlow(s, env, now, tx), true) && !Apply(s, env, now, tx).halted
  {
    hide Inv, SubmitAndDeposit, Deposit, VetoStore, Explains, RequiredDeposit, Allowed, WorldFlow;
    Unmoved(s, s);
    match tx
    case Submission(messages, minInitial, proposer, amount) =>
      ExplainsSubmission(s, env, now, messages, minInitial, proposer, amount);
    case Depositing(id, who, amount) => ExplainsDeposit(s, env, now, id, who, amount, false);
    case Vetoing(vetoer, id, burn) => ExplainsVeto(s, env, now, vetoer, id, burn);
    case Outside(w) => if Allowed(s.world, w) { ExplainsOutside(s, w); }
    case _ => Unmoved(s, Apply(s, env, now, tx));
  }

  lemma ExplainsCompose(s: Store, s1: Store, s2: Store, f: Flow, g: Flow, kept: bool)
    requires Explains(s, s1, f, kept) && Explains(s1, s2, g, kept)
    ensures Explains(s, s2, f.Plus(g), kept)
  {
    hide Accounts, Booked, SupplyIsTotal;
    AccountsCompose(s, s1, s2, f, g);
    if kept && SupplyIsTotal(s.world) {
      BookedIs(s, s1, f);
      BookedCompose(s, s1, s2, f, g);
    }
  }

  ghost function TxFlows(s: Store, env: Env, now: Time, txs: seq<Tx>): Flow
    decreases |txs|
  {
    if txs == [] then STILL
    else TxFlow(s, env, now, txs[0]).Plus(TxFlows(Apply(s, env, now, txs[0]), env, now, txs[1..]))
  }

  lemma {:induction false} ApplyAllFlow(s: Store, env: Env, now: Time, txs: seq<Tx>)
    requires Inv(s) && DaoParamsOk(s.dao) && !s.halted
    ensures Explains(s, ApplyAll(s, env, now, txs), TxFlows(s, env, now, txs), true) && !ApplyAll(s, env, now, txs).halted
    decreases |txs|
  {
    hide Inv, Apply, DaoParamsOk, TxFlow, Explains;
    if txs == [] {
      Unmoved(s, s);
    } else {
      var s1 := Apply(s, env, now, txs[0]);
      ApplyInv(s, env, now, txs[0]);
      ApplyDao(s, env, now, txs[0]);
      ApplyFlow(s, env, now, txs[0]);
      ApplyAllFlow(s1, env, now, txs[1..]);
      var f, g := TxFlow(s, env, now, txs[0]), TxFlows(s1, env, now, txs[1..]);
      ExplainsCompose(s, s1, ApplyAll(s1, env, now, txs[1..]), f, g, true);
    }
  }

  // ---------------------------------------------------------------- runs

  /** All that a run does to coins: vetoes and other modules, dropped and tallied proposals, messages and hooks. */
  ghost function RunFlow(s: Store, env: Env, bs: seq<Block>): Flow
    decreases |bs|
  {
    if bs == [] then STILL
    else
      var s1 := ApplyAll(s, env, bs[0].time, bs[0].txs);
      var f := TxFlows(s, env, bs[0].time, bs[0].txs).Plus(BlockFlow(s1, env, bs[0].time));
      f.Plus(RunFlow(Step(s, env, bs[0]), env, bs[1..]))
  }

  lemma StepFlow(s: Store, env: Env, b: Block, last: Time)
    requires Good(s, last) && PositiveQuorum(env) && last < b.time && !Step(s, env, b).halted
    ensures var f := TxFlows(s, env, b.time, b.txs).Plus(BlockFlow(ApplyAll(s, env, b.time, b.txs), env, b.time));
            Explains(s, Step(s, env, b), f, Banked(env))
  {
    hide Inv, ApplyAll, EndBlock, PositiveQuorum, Banked, DaoParamsOk, SupplyIsTotal, Accounts, Booked, TxFlows, BlockFlow;
    var s1 := ApplyAll(s, env, b.time, b.txs);
    StepNotHalted(s, env, b);
    ApplyAllInv(s, env, b.time, b.txs, last);
    ApplyAllFlow(s, env, b.time, b.txs);
    EndBlockFlow(s1, env, b.time);
    ExplainsCompose(s, s1, Step(s, env, b), TxFlows(s, env, b.time, b.txs), BlockFlow(s1, env, b.time), Banked(env));
  }

  /**
   Over any run that does not panic, the gov account changes by exactly what the stored deposits
   change and what it gained and spent otherwise, and goes on covering the deposits exactly if
   what it spent left room for them.  If the books are kept, they balance in the end, and the
   supply has fallen by exactly the deposits burnt, apart from what was minted and taken.
   */
  lemma {:induction false} RunAccounted(s: Store, env: Env, bs: seq<Block>, last: Time)
    requires Good(s, last) && PositiveQuorum(env) && Timely(last, bs) && !Run(s, env, bs).halted
    ensures var r, f := Run(s, env, bs), RunFlow(s, env, bs);
            && Accounts(s, r, f)
            && (Solvent(r) <==> Sum(s.deposits) + f.spent <= s.world.gov + f.gained)
            && (Banked(env) && SupplyIsTotal(s.world) ==> Booked(s, r, f))
    decreases |bs|
  {
    hide Good, PositiveQuorum, Banked, Step, SupplyIsTotal, Accounts, Booked, Solvent, Sum, TxFlows, BlockFlow, ApplyAll;
    if bs == [] {
      NothingMoved(s, s);
    } else {
      var s1 := Step(s, env, bs[0]);
      RunNotHalted(s1, env, bs[1..]);
      StepGood(s, env, bs[0], last);
      StepFlow(s, env, bs[0], last);
      RunAccounted(s1, env, bs[1..], bs[0].time);
      var f := TxFlows(s, env, bs[0].time, bs[0].txs).Plus(BlockFlow(ApplyAll(s, env, bs[0].time, bs[0].txs), env, bs[0].time));
      ExplainsCompose(s, s1, Run(s1, env, bs[1..]), f, RunFlow(s1, env, bs[1..]), Banked(env));
    }
    SolventAfterIff(s, Run(s, env, bs), RunFlow(s, env, bs));
  }

  // ---------------------------------------------------------------- deposits and gifts

  /** What others have paid into the gov account without depositing it. */
  ghost function AllGifts(s: Store, env: Env, bs: seq<Block>): Coins
    decreases |bs|
  {
    if bs == [] then multiset{}
    else TxFlows(s, env, bs[0].time, bs[0].txs).gained + AllGifts(Step(s, env, bs[0]), env, bs[1..])
  }

  /** Transactions do not spend from the gov account, other than settled deposits. */
  lemma NothingSpent(s: Store, env: Env, now: Time, tx: Tx)
    ensures TxFlow(s, env, now, tx).spent == multiset{}
  {
    hide VetoStore, Veto, SupplyIsTotal;
    if tx.Outside? && Allowed(s.world, tx.world) { NoLoss(s.world.gov, tx.world.gov); }
  }

  lemma {:induction false} NothingSpentByTxs(s: Store, env: Env, now: Time, txs: seq<Tx>)
    ensures TxFlows(s, env, now, txs).spent == multiset{}
    decreases |txs|
  {
    hide Apply, TxFlow;
    if txs != [] {
      NothingSpent(s, env, now, txs[0]);
      NothingSpentByTxs(Apply(s, env, now, txs[0]), env, now, txs[1..]);
    }
  }

  lemma NoLoss(x: Coins, y: Coins)
    requires x <= y
    ensures x - y == multiset{}
  {
  }

  lemma {:induction false} OnlyGifts(s: Store, env: Env, bs: seq<Block>, last: Time)
    requires Good(s, last) && PositiveQuorum(env) && Timely(last, bs) && LeavesAccount(env)
    ensures RunFlow(s, env, bs).spent == multiset{} && RunFlow(s, env, bs).gained == AllGifts(s, env, bs)
    decreases |bs|
  {
    hide Inv, PositiveQuorum, EndBlock, TxFlows, BlockFlow, ApplyAll, LeavesAccount, DaoParamsOk;
    if bs != [] {
      var b, s1 := bs[0], ApplyAll(s, env, bs[0].time, bs[0].txs);
      ApplyAllInv(s, env, b.time, b.txs, last);
      BlockFlowLeaves(s1, env, b.time);
      NothingSpentByTxs(s, env, b.time, b.txs);
      StepGood(s, env, b, last);
      OnlyGifts(Step(s, env, b), env, bs[1..], b.time);
      Sums(TxFlows(s, env, b.time, b.txs), BlockFlow(s1, env, b.time), RunFlow(Step(s, env, b), env, bs[1..]));
    }
  }

  lemma Sums(f: Flow, g: Flow, h: Flow)
    requires f.spent == multiset{} && g.spent == multiset{} && g.gained == multiset{} && h.spent == multiset{}
    ensures f.Plus(g).Plus(h).spent == multiset{} && f.Plus(g).Plus(h).gained == f.gained + h.gained
  {
  }

  /**
   From an empty gov store and account on, the gov account holds the deposits and what it gained,
   less what it spent; if messages and hooks leave it alone, the deposits and the gifts.
   */
  lemma AccountIsDepositsAndGifts(s: Store, env: Env, bs: seq<Block>, last: Time)
    requires Good(s, last) && PositiveQuorum(env) && Timely(last, bs) && !Run(s, env, bs).halted
    requires s.deposits == map[] && s.world.gov == multiset{}
    ensures var r, f := Run(s, env, bs), RunFlow(s, env, bs);
            && r.world.gov + f.spent == Sum(r.deposits) + f.gained
            && (LeavesAccount(env) ==> r.world.gov == Sum(r.deposits) + AllGifts(s, env, bs))
  {
    hide Good, PositiveQuorum, Banked, Run, SupplyIsTotal, RunFlow, AllGifts, LeavesAccount, Solvent;
    RunAccounted(s, env, bs, last);
    SumEmpty(s.deposits);
    var r, f, none: Coins := Run(s, env, bs), RunFlow(s, env, bs), multiset{};
    var d := Sum(r.deposits);
    hide Sum;
    assert r.world.gov + none + f.spent == r.world.gov + f.spent && none + f.gained + d == d + f.gained;
    if LeavesAccount(env) {
      OnlyGifts(s, env, bs, last);
      assert r.world.gov + none == r.world.gov;
    }
  }
}
