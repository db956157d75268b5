/**
 Where coins go in one block, exactly.  The gov account pays out the deposits that are settled
 and changes otherwise only by what messages and hooks put in or take out; the supply falls by
 the deposits that are burnt and changes otherwise only by what they mint and take.  Nothing is
 assumed of the messages but that the bank keeps its books, and nothing of the account but that
 the block does not panic.
 */
module GovFlows {
  import opened Options
  import opened GovTypes
  import opened CoinSums
  import opened GovQueue
  import opened GovStore
  import opened GovEndBlock
  import opened GovInvariants
  import opened GovBlock
  import opened GovScan
  import opened GovFate
  import opened GovMoney
  import opened GovHalts

  /** The bank keeps its books: messages and hooks mint and burn only through the supply. */
  ghost predicate Banked(env: Env) {
    && (forall w: World, m :: env.handle(w, m).Some? ==>
          SameChange(w.supply, env.handle(w, m).value.supply, Total(w), Total(env.handle(w, m).value)))
    && (forall w: World, p, o ::
          SameChange(w.supply, env.afterTally(w, p, o).supply, Total(w), Total(env.afterTally(w, p, o))))
  }

  // ---------------------------------------------------------------- one proposal

  /** The step of the inactive pass: the deposits of a dropped proposal, if they are to be burnt. */
  function DropFlow(s: Store, id: nat): Flow {
    if id in s.proposals && !MeetsDeposit(s, s.proposals[id])
    then SettleFlow(s.proposals[id].totalDeposit, s.params.burnPrevote)
    else STILL
  }

  /** What a world change that settles no deposits does. */
  function WorldFlow(w: World, w': World): Flow {
    Flow(multiset{}, w'.supply - w.supply, w.supply - w'.supply, w'.gov - w.gov, w.gov - w'.gov)
  }

  /** The step of the active pass: the deposits, if the tally says so, and what messages and hooks do after the settlement. */
  ghost function TallyFlow(s: Store, env: Env, id: nat): Flow {
    if id !in s.proposals then STILL
    else
      var o := env.tally(s.world, s.proposals[id], VotesOf(s, id));
      SettleFlow(s.proposals[id].totalDeposit, o.burn)
        .Plus(WorldFlow(SettledWorld(s, env, id), ActiveStep(s, env, id).world))
  }

  /** A proposal that misses its deposit: every depositor gets its deposit back, or they are burnt if the parameters say so. */
  lemma DropPays(s: Store, env: Env, now: Time, k: QKey)
    requires Inv(s) && k in s.inactive && !Short(s, k.id)
    requires var least := if s.minDeposit.value == multiset{} then s.params.depositFloor else s.minDeposit.value;
             k.id in s.proposals && !(least <= s.proposals[k.id].totalDeposit)
    ensures var s', burn, paid := InactiveStep(s, env, now, k.id), s.params.burnPrevote, Sum(OfProposal(s.deposits, k.id));
            && (forall a :: Get(s'.world.accounts, a) ==
                            Get(s.world.accounts, a) + if burn then multiset{} else Get(s.deposits, DKey(k.id, a)))
            && s'.world.gov == s.world.gov - paid && s'.world.kv == s.world.kv
            && s'.world.supply == (if burn then s.world.supply - paid else s.world.supply)
  {
    DeleteKeeps(s, k.id);
    hide Inv, Sum, DeleteProposal, SettleDeposits, OfProposal, Get;
    SettlePays(DeleteProposal(s, k.id), k.id, s.params.burnPrevote);
  }

  lemma InactiveStepFlow(s: Store, env: Env, now: Time, k: QKey)
    requires Inv(s) && k in s.inactive && !InactiveStep(s, env, now, k.id).halted
    ensures Accounts(s, InactiveStep(s, env, now, k.id), DropFlow(s, k.id))
    ensures SupplyIsTotal(s.world) ==> Booked(s, InactiveStep(s, env, now, k.id), DropFlow(s, k.id))
  {
    DepositAt(s, k);
    KnownId(s, k.id);
    TotalIsOwed(s, k.id);
    DeleteKeeps(s, k.id);
    var id, s' := k.id, InactiveStep(s, env, now, k.id);
    hide SettleDeposits, Sum, Inv, OfProposal, Without, DeleteProposal, RequiredDeposit, Total, SettleFlow;
    if MeetsDeposit(s, s.proposals[id]) {
      NothingMoved(s, s');
    } else {
      DropShape(s, env, now, id);
      SettleBalance(DeleteProposal(s, id), id, s.params.burnPrevote);
      SettledFlow(s, s', s.proposals[id].totalDeposit, s.params.burnPrevote);
    }
    hide InactiveStep, Accounts, Booked;
  }

  /** A change of the world around the store. */
  lemma WorldMoved(s: Store, s': Store)
    requires s'.deposits == s.deposits
    ensures Accounts(s, s', WorldFlow(s.world, s'.world))
    ensures SupplyIsTotal(s.world) && SupplyIsTotal(s'.world) ==> Booked(s, s', WorldFlow(s.world, s'.world))
  {
    var a, f, x, y := Sum(s.deposits), WorldFlow(s.world, s'.world), s.world, s'.world;
    hide Sum, Total;
    forall d: Denom ensures (y.gov + a + f.spent)[d] == (x.gov + f.gained + a)[d] {
      assert f.spent[d] == (x.gov - y.gov)[d] && f.gained[d] == (y.gov - x.gov)[d];
    }
    forall d: Denom ensures (y.supply + f.burnt + f.taken)[d] == (x.supply + f.minted)[d] {
      assert f.taken[d] == (x.supply - y.supply)[d] && f.minted[d] == (y.supply - x.supply)[d];
    }
  }

  lemma ChangesCompose(x: Coins, x1: Coins, x2: Coins, y: Coins, y1: Coins, y2: Coins)
    requires SameChange(x, x1, y, y1) && SameChange(x1, x2, y1, y2)
    ensures SameChange(x, x2, y, y2)
  {
    forall d: Denom ensures (x2 + y)[d] == (x + y2)[d] {
      assert (x1 + y)[d] == (x + y1)[d] && (x2 + y1)[d] == (x1 + y2)[d];
    }
  }

  lemma {:induction false} RunBanked(env: Env, w: World, msgs: seq<Option<Message>>)
    requires Banked(env)
    ensures var r := RunMessages(env, w, msgs);
            r.Some? ==> SameChange(w.supply, r.value.supply, Total(w), Total(r.value))
    decreases |msgs|
  {
    hide Total;
    if msgs != [] && msgs[0].Some? && env.handle(w, msgs[0].value).Some? {
      var w1 := env.handle(w, msgs[0].value).value;
      RunBanked(env, w1, msgs[1..]);
      if r :| RunMessages(env, w1, msgs[1..]) == Some(r) {
        ChangesCompose(w.supply, w1.supply, r.supply, Total(w), Total(w1), Total(r));
      }
    }
  }

  lemma TotalFollows(w: World, w': World)
    requires SupplyIsTotal(w) && SameChange(w.supply, w'.supply, Total(w), Total(w'))
    ensures SupplyIsTotal(w')
  {
    hide Total;
    forall d: Denom ensures w'.supply[d] == Total(w')[d] {
      assert (w'.supply + Total(w))[d] == (w.supply + Total(w'))[d];
    }
  }

  lemma VerdictBanked(env: Env, w: World, p: Proposal, o: TallyOutcome)
    requires Banked(env) && SupplyIsTotal(w)
    ensures SupplyIsTotal(Verdict(env, w, p, o).1)
  {
    hide RunMessages, Total, AllUnpack, SupplyIsTotal, SameChange;
    RunBanked(env, w, p.messages);
    var w' := Verdict(env, w, p, o).1;
    if w' != w { TotalFollows(w, w'); }
  }

  lemma HookBanked(env: Env, w: World, p: Proposal, o: TallyOutcome)
    requires Banked(env) && SupplyIsTotal(w)
    ensures SupplyIsTotal(env.afterTally(w, p, o))
  {
    hide Total, SupplyIsTotal, SameChange;
    TotalFollows(w, env.afterTally(w, p, o));
  }

  /** After the settlement of a tally the deposits stay, and the books are kept. */
  lemma AfterSettlement(s: Store, env: Env, k: QKey)
    requires Inv(s) && k in s.active
    ensures k.id in s.proposals && ActiveStep(s, env, k.id).deposits == Without(s.deposits, k.id)
    ensures Banked(env) && SupplyIsTotal(SettledWorld(s, env, k.id)) ==> SupplyIsTotal(ActiveStep(s, env, k.id).world)
  {
    VotingAt(s, k);
    ActiveStepShape(s, env, k);
    ActiveStepIs(s, env, k.id);
    hide ActiveStep, SettleDeposits, Verdict, TalliedVotes, VotesOf, Inv, Banked, Without, OfProposal, SupplyIsTotal;
    var w, p := SettledWorld(s, env, k.id), s.proposals[k.id];
    var o := env.tally(s.world, p, VotesOf(s, k.id));
    if Banked(env) && SupplyIsTotal(w) {
      VerdictBanked(env, w, p, o);
      var v := Verdict(env, w, p, o);
      HookBanked(env, v.1, p.(status := v.0, tally := o.result), o);
    }
  }

  lemma ActiveStepFlow(s: Store, env: Env, k: QKey)
    requires Inv(s) && k in s.active && !ActiveStep(s, env, k.id).halted
    ensures Accounts(s, ActiveStep(s, env, k.id), TallyFlow(s, env, k.id))
    ensures Banked(env) && SupplyIsTotal(s.world) ==> Booked(s, ActiveStep(s, env, k.id), TallyFlow(s, env, k.id))
  {
    VotingAt(s, k);
    TotalIsOwed(s, k.id);
    ActiveStepShape(s, env, k);
    AfterSettlement(s, env, k);
    var s', p := ActiveStep(s, env, k.id), s.proposals[k.id];
    var o := env.tally(s.world, p, VotesOf(s, k.id));
    var s0 := s.(votes := TalliedVotes(s.votes, k.id, o.err));
    var s1 := SettleDeposits(s0, k.id, o.burn);
    hide SettleDeposits, ActiveStep, TalliedVotes, VotesOf, Inv, Sum, OfProposal, Without, Total, SettleFlow, WorldFlow, Banked;
    SettleBalance(s0, k.id, o.burn);
    SettledFlow(s, s1, p.totalDeposit, o.burn);
    WorldMoved(s1, s');
    hide Accounts, Booked, SupplyIsTotal;
    AccountsCompose(s, s1, s', SettleFlow(p.totalDeposit, o.burn), WorldFlow(s1.world, s'.world));
    if Booked(s, s1, SettleFlow(p.totalDeposit, o.burn)) && Booked(s1, s', WorldFlow(s1.world, s'.world)) {
      BookedCompose(s, s1, s', SettleFlow(p.totalDeposit, o.burn), WorldFlow(s1.world, s'.world));
    }
  }

  // ---------------------------------------------------------------- the passes

  ghost function DropFlows(s: Store, env: Env, now: Time, ks: seq<QKey>): Flow
    decreases |ks|
  {
    if ks == [] then STILL
    else DropFlow(s, ks[0].id).Plus(DropFlows(InactiveStep(s, env, now, ks[0].id), env, now, ks[1..]))
  }

  ghost function TallyFlows(s: Store, env: Env, ks: seq<QKey>): Flow
    decreases |ks|
  {
    if ks == [] then STILL
    else TallyFlow(s, env, ks[0].id).Plus(TallyFlows(ActiveStep(s, env, ks[0].id), env, ks[1..]))
  }

  lemma BookedIs(s: Store, s': Store, f: Flow)
    requires Booked(s, s', f)
    ensures SupplyIsTotal(s.world) && SupplyIsTotal(s'.world)
  {
  }

  /** The inactive pass: settled deposits leave the gov account, and the supply if they are to be burnt. */
  lemma {:induction false} InactivePassFlow(s: Store, env: Env, now: Time, ks: seq<QKey>)
    requires Inv(s) && DistinctIds(ks) && (forall k | k in ks :: k in s.inactive) && !InactivePass(s, env, now, ks).halted
    ensures Accounts(s, InactivePass(s, env, now, ks), DropFlows(s, env, now, ks))
    ensures SupplyIsTotal(s.world) ==> Booked(s, InactivePass(s, env, now, ks), DropFlows(s, env, now, ks))
    decreases |ks|
  {
    hide Inv, InactiveStep, SupplyIsTotal, Accounts, Booked, DropFlow;
    if ks == [] {
      NothingMoved(s, s);
    } else {
      var k, s1, s' := ks[0], InactiveStep(s, env, now, ks[0].id), InactivePass(s, env, now, ks);
      var f, g := DropFlow(s, k.id), DropFlows(s1, env, now, ks[1..]);
      assert k in ks;
      if s1.halted { InactivePassSticky(s1, env, now, ks[1..]); }
      InactiveStepFlow(s, env, now, k);
      InactiveStepInv(s, env, now, k);
      forall x | x in ks[1..] ensures x in s1.inactive { TailKeys(ks, x); }
      InactivePassFlow(s1, env, now, ks[1..]);
      AccountsCompose(s, s1, s', f, g);
      if SupplyIsTotal(s.world) {
        BookedIs(s, s1, f);
        BookedCompose(s, s1, s', f, g);
      }
    }
  }

  lemma ReadyHead(s: Store, ks: seq<QKey>)
    requires Ready(s, ks) && ks != []
    ensures ks[0] in s.active
  {
    assert ks[0] in ks;
  }

  /** The active pass: each due proposal's deposits, and what messages and hooks do after its settlement. */
  lemma {:induction false} ActivePassFlow(s: Store, env: Env, ks: seq<QKey>)
    requires Inv(s) && Ready(s, ks) && !ActivePass(s, env, ks).halted
    ensures Accounts(s, ActivePass(s, env, ks), TallyFlows(s, env, ks))
    ensures Banked(env) && SupplyIsTotal(s.world) ==> Booked(s, ActivePass(s, env, ks), TallyFlows(s, env, ks))
    decreases |ks|
  {
    hide Inv, ActiveStep, SupplyIsTotal, Accounts, Booked, TallyFlow, Banked, Ready;
    if ks == [] {
      NothingMoved(s, s);
    } else {
      var k, s1, s' := ks[0], ActiveStep(s, env, ks[0].id), ActivePass(s, env, ks);
      var f, g := TallyFlow(s, env, k.id), TallyFlows(s1, env, ks[1..]);
      if s1.halted { ActivePassSticky(s1, env, ks[1..]); }
      ReadyHead(s, ks);
      ActiveStepFlow(s, env, k);
      ReadyTail(s, env, ks);
      ActivePassFlow(s1, env, ks[1..]);
      AccountsCompose(s, s1, s', f, g);
      if Banked(env) && SupplyIsTotal(s.world) {
        BookedIs(s, s1, f);
        BookedCompose(s, s1, s', f, g);
      }
    }
  }

  lemma {:induction false} QuorumPassMoney(s: Store, env: Env, now: Time, ks: seq<QKey>)
    ensures var s' := QuorumPass(s, env, now, ks); s'.world == s.world && s'.deposits == s.deposits
    decreases |ks|
  {
    if ks != [] {
      hide EffectOf;
      QuorumPassMoney(QuorumStep(s, env, now, ks[0]), env, now, ks[1..]);
    }
  }

  // ---------------------------------------------------------------- the block

  /** All that a block does to coins. */
  ghost function BlockFlow(s: Store, env: Env, now: Time): Flow {
    var s2 := AfterQuorum(AfterInactive(s, env, now), env, now);
    DropFlows(s, env, now, DueKeys(s.inactive, now)).Plus(TallyFlows(s2, env, DueKeys(s2.active, now)))
  }

  lemma SameCoins(s: Store, s1: Store, s2: Store, s3: Store, f: Flow)
    requires s1.world == s.world && s1.deposits == s.deposits && s3.world == s2.world && s3.deposits == s2.deposits
    ensures Accounts(s, s2, f) ==> Accounts(s1, s3, f)
    ensures Booked(s, s2, f) ==> Booked(s1, s3, f)
  {
  }

  /** A block that does not panic: gov account and supply change by exactly its flow. */
  lemma EndBlockFlow(s: Store, env: Env, now: Time)
    requires Inv(s) && PositiveQuorum(env) && !EndBlock(s, env, now).halted
    ensures Accounts(s, EndBlock(s, env, now), BlockFlow(s, env, now))
    ensures Banked(env) && SupplyIsTotal(s.world) ==> Booked(s, EndBlock(s, env, now), BlockFlow(s, env, now))
  {
    PassesNotHalted(s, env, now);
    DueInactive(s, now);
    AfterInactiveInv(s, env, now);
    var s1 := AfterInactive(s, env, now);
    AfterQuorumInv(s1, env, now);
    var s2 := AfterQuorum(s1, env, now);
    DueReady(s2, now);
    hide Inv, InactivePass, QuorumPass, ActivePass, DueKeys, Ready, SupplyIsTotal, Banked, Accounts, Booked;
    hide DropFlows, TallyFlows, PositiveQuorum;
    var s3, s' := AfterActive(s2, env, now), EndBlock(s, env, now);
    var f, g := DropFlows(s, env, now, DueKeys(s.inactive, now)), TallyFlows(s2, env, DueKeys(s2.active, now));
    InactivePassFlow(s, env, now, DueKeys(s.inactive, now));
    QuorumPassMoney(s1, env, now, DueKeys(s1.quorum.Keys, now));
    ActivePassFlow(s2, env, DueKeys(s2.active, now));
    SameCoins(s, s, s1, s2, f);
    SameCoins(s2, s2, s3, s', g);
    AccountsCompose(s, s2, s', f, g);
    if Banked(env) && SupplyIsTotal(s.world) {
      BookedIs(s, s1, f);
      BookedCompose(s, s2, s', f, g);
    }
  }

  /** After a block that does not panic the gov account covers the deposits exactly if what was spent left room for them. */
  lemma EndBlockSolventIff(s: Store, env: Env, now: Time)
    requires Inv(s) && PositiveQuorum(env) && !EndBlock(s, env, now).halted
    ensures var f := BlockFlow(s, env, now);
            Solvent(EndBlock(s, env, now)) <==> Sum(s.deposits) + f.spent <= s.world.gov + f.gained
  {
    hide EndBlock, BlockFlow, Accounts, Solvent, Inv, PositiveQuorum, Sum;
    EndBlockFlow(s, env, now);
    SolventAfterIff(s, EndBlock(s, env, now), BlockFlow(s, env, now));
  }

  // ---------------------------------------------------------------- messages that leave the gov account alone

  /** Messages and hooks neither spend from the gov account nor pay into it. */
  ghost predicate LeavesAccount(env: Env) {
    && (forall w: World, m :: env.handle(w, m).Some? ==> env.handle(w, m).value.gov == w.gov)
    && (forall w: World, p, o :: env.afterTally(w, p, o).gov == w.gov)
  }

  lemma {:induction false} RunLeaves(env: Env, w: World, msgs: seq<Option<Message>>)
    requires LeavesAccount(env)
    ensures var r := RunMessages(env, w, msgs); r.Some? ==> r.value.gov == w.gov
    decreases |msgs|
  {
    if msgs != [] && msgs[0].Some? && env.handle(w, msgs[0].value).Some? {
      RunLeaves(env, env.handle(w, msgs[0].value).value, msgs[1..]);
    }
  }

  lemma VerdictLeaves(env: Env, w: World, p: Proposal, o: TallyOutcome)
    requires LeavesAccount(env)
    ensures Verdict(env, w, p, o).1.gov == w.gov
  {
    hide RunMessages, AllUnpack;
    RunLeaves(env, w, p.messages);
  }

  lemma StepLeaves(s: Store, env: Env, k: QKey)
    requires Inv(s) && k in s.active && LeavesAccount(env)
    ensures k.id in s.proposals && ActiveStep(s, env, k.id).world.gov == SettledWorld(s, env, k.id).gov
  {
    VotingAt(s, k);
    hide SettleDeposits, Verdict, TalliedVotes, VotesOf, Inv;
    var p, w := s.proposals[k.id], SettledWorld(s, env, k.id);
    var o := env.tally(s.world, p, VotesOf(s, k.id));
    VerdictLeaves(env, w, p, o);
  }

  lemma TallyLeaves(s: Store, env: Env, k: QKey)
    requires Inv(s) && k in s.active && LeavesAccount(env)
    ensures var f := TallyFlow(s, env, k.id); f.gained == multiset{} && f.spent == multiset{}
  {
    hide ActiveStep, SettledWorld, VotesOf, Inv, LeavesAccount;
    StepLeaves(s, env, k);
  }

  lemma {:induction false} TallyFlowsLeave(s: Store, env: Env, ks: seq<QKey>)
    requires Inv(s) && Ready(s, ks) && LeavesAccount(env)
    ensures var f := TallyFlows(s, env, ks); f.gained == multiset{} && f.spent == multiset{}
    decreases |ks|
  {
    hide Inv, ActiveStep, TallyFlow, LeavesAccount, Ready;
    if ks != [] {
      ReadyHead(s, ks);
      TallyLeaves(s, env, ks[0]);
      ReadyTail(s, env, ks);
      TallyFlowsLeave(ActiveStep(s, env, ks[0].id), env, ks[1..]);
    }
  }

  lemma {:induction false} DropFlowsLeave(s: Store, env: Env, now: Time, ks: seq<QKey>)
    ensures var f := DropFlows(s, env, now, ks); f.gained == multiset{} && f.spent == multiset{}
    decreases |ks|
  {
    hide InactiveStep, RequiredDeposit;
    if ks != [] { DropFlowsLeave(InactiveStep(s, env, now, ks[0].id), env, now, ks[1..]); }
  }

  lemma NothingMoves(f: Flow, g: Flow)
    requires f.gained == multiset{} && f.spent == multiset{} && g.gained == multiset{} && g.spent == multiset{}
    ensures f.Plus(g).gained == multiset{} && f.Plus(g).spent == multiset{}
  {
  }

  lemma SurplusStays(s: Store, s': Store, f: Flow)
    requires Accounts(s, s', f) && f.gained == multiset{} && f.spent == multiset{}
    ensures s'.world.gov + Sum(s.deposits) == s.world.gov + Sum(s'.deposits) && (Solvent(s') <==> Solvent(s))
  {
    SolventAfterIff(s, s', f);
    var a, b, none: Coins := Sum(s.deposits), Sum(s'.deposits), multiset{};
    hide Sum;
    assert s'.world.gov + a + none == s'.world.gov + a && s.world.gov + none == s.world.gov && a + none == a;
  }

  lemma BlockFlowLeaves(s: Store, env: Env, now: Time)
    requires Inv(s) && PositiveQuorum(env) && LeavesAccount(env)
    ensures BlockFlow(s, env, now).gained == multiset{} && BlockFlow(s, env, now).spent == multiset{}
  {
    AfterInactiveInv(s, env, now);
    var s1 := AfterInactive(s, env, now);
    AfterQuorumInv(s1, env, now);
    var s2 := AfterQuorum(s1, env, now);
    DueReady(s2, now);
    hide Inv, AfterInactive, AfterQuorum, DueKeys, Ready, LeavesAccount, DropFlows, TallyFlows, PositiveQuorum;
    TallyFlowsLeave(s2, env, DueKeys(s2.active, now));
    DropFlowsLeave(s, env, now, DueKeys(s.inactive, now));
    NothingMoves(DropFlows(s, env, now, DueKeys(s.inactive, now)), TallyFlows(s2, env, DueKeys(s2.active, now)));
  }

  /** Then what the gov account holds beyond the deposits is the same before and after the block. */
  lemma EndBlockMoney(s: Store, env: Env, now: Time)
    requires Inv(s) && PositiveQuorum(env) && LeavesAccount(env) && !EndBlock(s, env, now).halted
    ensures var s' := EndBlock(s, env, now);
            s'.world.gov + Sum(s.deposits) == s.world.gov + Sum(s'.deposits) && (Solvent(s') <==> Solvent(s))
  {
    hide Inv, EndBlock, BlockFlow, LeavesAccount, PositiveQuorum, Sum, Accounts, Solvent;
    EndBlockFlow(s, env, now);
    BlockFlowLeaves(s, env, now);
    SurplusStays(s, EndBlock(s, env, now), BlockFlow(s, env, now));
  }
}
