/**
 When EndBlock panics, which stops the chain.  Settling deposits panics if the gov account
 cannot pay them, and the messages of a passed proposal, which the gov account signs, can take
 coins out of it; a check interval shorter than a nanosecond divides by zero.
 */
module GovPanics {
  import opened Options
  import opened GovTypes
  import opened CoinSums
  import opened GovQueue
  import opened GovStore
  import opened GovEndBlock
  import opened GovInvariants
  import opened GovBlock
  import opened GovScan
  import opened GovMoney
  import opened GovHalts
  import opened GovFlows
  import opened GovRoom
  import opened GovTx
  import opened CoreDaos
  import opened GovSteps
  import opened GovRuns
  import opened GovSolvency

  // ---------------------------------------------------------------- the passes

  /** A proposal of s is owed more than the gov account of s1 holds. */
  predicate Underfunded(s: Store, s1: Store, id: nat) {
    id in s.proposals && !(s.proposals[id].totalDeposit <= s1.world.gov)
  }

  lemma OwedIsTotal(s: Store, id: nat)
    requires Inv(s) && id in s.proposals && Open(s.proposals[id])
    ensures Short(s, id) <==> Underfunded(s, s, id)
  {
    hide Sum, OfProposal;
  }

  lemma SameUnderfunded(s: Store, s1: Store, t: Store, id: nat)
    requires LocalOf(s, id) == LocalOf(s1, id)
    ensures Underfunded(s, t, id) <==> Underfunded(s1, t, id)
    ensures id in s.proposals ==> id in s1.proposals && s1.proposals[id] == s.proposals[id]
  {
    hide EntriesOf, OfProposal;
    assert ProposalOf(s.proposals, id) == ProposalOf(s1.proposals, id);
  }

  // ---------------------------------------------------------------- the active pass

  /** The i-th tally on the list finds too little in the gov account at its turn. */
  ghost predicate TallyFails(s: Store, env: Env, ks: seq<QKey>, i: nat)
    requires i < |ks|
  {
    Underfunded(s, ActiveUpTo(s, env, ks, i), ks[i].id)
  }

  ghost predicate SomeTallyFails(s: Store, env: Env, ks: seq<QKey>) {
    exists i :: 0 <= i < |ks| && TallyFails(s, env, ks, i)
  }

  lemma ActiveStepHaltsIff(s: Store, env: Env, k: QKey)
    requires Inv(s) && k in s.active && !s.halted
    ensures ActiveStep(s, env, k.id).halted <==> Underfunded(s, s, k.id)
  {
    VotingAt(s, k);
    ActiveStepShape(s, env, k);
    OwedIsTotal(s, k.id);
    hide ActiveStep, Short, Sum, Without, Inv;
  }

  lemma TallyShift(s: Store, env: Env, ks: seq<QKey>, i: nat)
    requires DistinctIds(ks) && ks != [] && i < |ks| - 1
    ensures TallyFails(s, env, ks, i + 1) <==> TallyFails(ActiveStep(s, env, ks[0].id), env, ks[1..], i)
  {
    hide ActiveStep, LocalOf, Underfunded;
    assert ks[..i + 1][1..] == ks[1..][..i];
    ActiveStepFrame(s, env, ks[0].id, ks[i + 1].id);
    SameUnderfunded(s, ActiveStep(s, env, ks[0].id), ActiveUpTo(s, env, ks, i + 1), ks[i + 1].id);
  }

  lemma SomeTallyShift(s: Store, env: Env, ks: seq<QKey>)
    requires DistinctIds(ks) && ks != []
    ensures SomeTallyFails(s, env, ks) <==>
            Underfunded(s, s, ks[0].id) || SomeTallyFails(ActiveStep(s, env, ks[0].id), env, ks[1..])
  {
    var s1 := ActiveStep(s, env, ks[0].id);
    hide ActiveStep, Underfunded;
    assert TallyFails(s, env, ks, 0) <==> Underfunded(s, s, ks[0].id);
    forall i | 0 <= i < |ks| - 1 ensures TallyFails(s, env, ks, i + 1) <==> TallyFails(s1, env, ks[1..], i) {
      TallyShift(s, env, ks, i);
    }
    hide TallyFails;
    if i :| 0 <= i < |ks| && TallyFails(s, env, ks, i) {
      if i > 0 { assert TallyFails(s1, env, ks[1..], i - 1); }
    }
    if i :| 0 <= i < |ks[1..]| && TallyFails(s1, env, ks[1..], i) {
      assert TallyFails(s, env, ks, i + 1);
    }
  }

  /** The active pass panics exactly when one of its proposals, at its turn, is owed more than the gov account then holds. */
  lemma {:induction false} ActivePassHaltsIff(s: Store, env: Env, ks: seq<QKey>)
    requires Inv(s) && Ready(s, ks) && !s.halted
    ensures ActivePass(s, env, ks).halted <==> SomeTallyFails(s, env, ks)
    decreases |ks|
  {
    hide Inv, ActiveStep, Ready, Underfunded, SomeTallyFails;
    if ks == [] {
      NoTally(s, env);
    } else {
      ReadyHead(s, ks);
      var s1 := ActiveStep(s, env, ks[0].id);
      ActiveStepHaltsIff(s, env, ks[0]);
      ReadyTail(s, env, ks);
      ReadyDistinct(s, ks);
      SomeTallyShift(s, env, ks);
      if s1.halted { ActivePassSticky(s1, env, ks[1..]); } else { ActivePassHaltsIff(s1, env, ks[1..]); }
    }
  }

  lemma NoTally(s: Store, env: Env)
    ensures !SomeTallyFails(s, env, [])
  {
  }

  lemma ReadyDistinct(s: Store, ks: seq<QKey>)
    requires Ready(s, ks)
    ensures DistinctIds(ks)
  {
  }

  // ---------------------------------------------------------------- the inactive pass

  /** The i-th proposal on the list is dropped, and finds too little in the gov account at its turn. */
  ghost predicate DropFails(s: Store, env: Env, now: Time, ks: seq<QKey>, i: nat)
    requires i < |ks|
  {
    var si, id := InactiveUpTo(s, env, now, ks, i), ks[i].id;
    Underfunded(s, si, id) && !(RequiredDeposit(si) <= s.proposals[id].totalDeposit)
  }

  ghost predicate SomeDropFails(s: Store, env: Env, now: Time, ks: seq<QKey>) {
    exists i :: 0 <= i < |ks| && DropFails(s, env, now, ks, i)
  }

  lemma InactiveStepHaltsIff(s: Store, env: Env, now: Time, k: QKey)
    requires Inv(s) && k in s.inactive && !s.halted
    ensures InactiveStep(s, env, now, k.id).halted <==> DropFails(s, env, now, [k], 0)
  {
    DepositAt(s, k);
    KnownId(s, k.id);
    var p := s.proposals[k.id];
    assert InactiveUpTo(s, env, now, [k], 0) == s;
    DepositCounted(s, k);
    if MeetsDeposit(s, p) {
      hide Inv, Sum, OfProposal, RequiredDeposit;
    } else {
      DropShape(s, env, now, k.id);
      OwedIsTotal(s, k.id);
      hide InactiveStep, Short, Sum, Without, Inv, RequiredDeposit;
    }
  }

  lemma DepositCounted(s: Store, k: QKey)
    requires Inv(s) && k in s.inactive
    ensures s.nInactive > 0
  {
  }

  lemma DropShift(s: Store, env: Env, now: Time, ks: seq<QKey>, i: nat)
    requires DistinctIds(ks) && ks != [] && i < |ks| - 1
    ensures DropFails(s, env, now, ks, i + 1) <==> DropFails(InactiveStep(s, env, now, ks[0].id), env, now, ks[1..], i)
  {
    hide InactiveStep, LocalOf, Underfunded, RequiredDeposit;
    assert ks[..i + 1][1..] == ks[1..][..i];
    InactiveStepFrame(s, env, now, ks[0].id, ks[i + 1].id);
    SameUnderfunded(s, InactiveStep(s, env, now, ks[0].id), InactiveUpTo(s, env, now, ks, i + 1), ks[i + 1].id);
    UnderfundedIn(s, InactiveUpTo(s, env, now, ks, i + 1), ks[i + 1].id);
  }

  lemma UnderfundedIn(s: Store, s1: Store, id: nat)
    ensures Underfunded(s, s1, id) ==> id in s.proposals
  {
  }

  lemma SomeDropShift(s: Store, env: Env, now: Time, ks: seq<QKey>)
    requires DistinctIds(ks) && ks != []
    ensures SomeDropFails(s, env, now, ks) <==>
            DropFails(s, env, now, [ks[0]], 0) || SomeDropFails(InactiveStep(s, env, now, ks[0].id), env, now, ks[1..])
  {
    var s1 := InactiveStep(s, env, now, ks[0].id);
    hide InactiveStep, Underfunded, RequiredDeposit;
    UnderfundedIn(s, s, ks[0].id);
    assert InactiveUpTo(s, env, now, ks, 0) == InactiveUpTo(s, env, now, [ks[0]], 0) == s;
    forall i | 0 <= i < |ks| - 1 ensures DropFails(s, env, now, ks, i + 1) <==> DropFails(s1, env, now, ks[1..], i) {
      DropShift(s, env, now, ks, i);
    }
    assert DropFails(s, env, now, ks, 0) <==> DropFails(s, env, now, [ks[0]], 0);
    hide DropFails;
    if i :| 0 <= i < |ks| && DropFails(s, env, now, ks, i) {
      if i > 0 { assert DropFails(s1, env, now, ks[1..], i - 1); }
    }
    if i :| 0 <= i < |ks[1..]| && DropFails(s1, env, now, ks[1..], i) {
      assert DropFails(s, env, now, ks, i + 1);
    }
  }

  /** The inactive pass panics exactly when it drops a proposal that, at its turn, is owed more than the gov account holds. */
  lemma {:induction false} InactivePassHaltsIff(s: Store, env: Env, now: Time, ks: seq<QKey>)
    requires Inv(s) && DistinctIds(ks) && (forall k | k in ks :: k in s.inactive) && !s.halted
    ensures InactivePass(s, env, now, ks).halted <==> SomeDropFails(s, env, now, ks)
    decreases |ks|
  {
    hide Inv, InactiveStep, DropFails, SomeDropFails;
    if ks == [] {
      NoDrop(s, env, now);
    } else {
      var s1 := InactiveStep(s, env, now, ks[0].id);
      assert ks[0] in ks;
      InactiveStepHaltsIff(s, env, now, ks[0]);
      InactiveStepInv(s, env, now, ks[0]);
      forall k | k in ks[1..] ensures k in s1.inactive { TailKeys(ks, k); }
      SomeDropShift(s, env, now, ks);
      if s1.halted { InactivePassSticky(s1, env, now, ks[1..]); } else { InactivePassHaltsIff(s1, env, now, ks[1..]); }
    }
  }

  lemma NoDrop(s: Store, env: Env, now: Time)
    ensures !SomeDropFails(s, env, now, [])
  {
  }

  // ---------------------------------------------------------------- the quorum pass

  /** The check is to be repeated, and from the entry's timeout to the end of the vote there are fewer nanoseconds than checks. */
  ghost predicate CheckFails(s: Store, env: Env, now: Time, k: QKey) {
    && k in s.quorum && k.id in s.proposals && s.proposals[k.id].votingEnd.Some?
    && var e, p := s.quorum[k], s.proposals[k.id];
    && HasReachedQuorum(env, s.world, p, VotersOf(s, k.id)) == NotReached
    && e.done < e.count && now < p.votingEnd.value && p.votingEnd.value - e.timeout < e.count
  }

  ghost predicate SomeCheckFails(s: Store, env: Env, now: Time, ks: seq<QKey>) {
    exists k :: k in ks && CheckFails(s, env, now, k)
  }

  lemma CrashedIff(s: Store, env: Env, now: Time, k: QKey)
    requires k in s.quorum && k.id in s.proposals && EntryOk(k.time, s.quorum[k], s.proposals[k.id]) && k.time <= now
    ensures EffectOf(s, env, now, k) == Crashed <==> CheckFails(s, env, now, k)
  {
    hide HasReachedQuorum, VotersOf, NextCheck;
    NextCheckPanicsIff(k.time, s.quorum[k], s.proposals[k.id].votingEnd.value, now);
  }

  /** A due quorum check panics exactly when it divides by zero. */
  lemma QuorumStepHaltsIff(s: Store, env: Env, now: Time, k: QKey)
    requires Inv(s) && k in s.quorum && k.time <= now && !s.halted
    ensures QuorumStep(s, env, now, k).halted <==> CheckFails(s, env, now, k)
  {
    hide EffectOf, ApplyEffect, CheckFails, VotesOk, Queues, QuorumQueue, Records;
    EntryPlaced(s, k);
    CrashedIff(s, env, now, k);
    EffectVotes(s, now, k, EffectOf(s, env, now, k));
  }

  lemma EntryPlaced(s: Store, k: QKey)
    requires Inv(s) && k in s.quorum
    ensures k.id in s.proposals && EntryOk(k.time, s.quorum[k], s.proposals[k.id])
  {
  }

  lemma CheckFailsLocal(s: Store, s1: Store, env: Env, now: Time, k: QKey)
    requires LocalOf(s, k.id) == LocalOf(s1, k.id) && s.world == s1.world
    ensures CheckFails(s, env, now, k) <==> CheckFails(s1, env, now, k)
  {
    hide HasReachedQuorum, VotersOf, EntriesOf, OfProposal;
    EntryLocal(s, s1, k);
    VotersLocal(s, s1, k.id);
    assert ProposalOf(s.proposals, k.id) == ProposalOf(s1.proposals, k.id);
  }

  lemma SomeCheckShift(s: Store, env: Env, now: Time, ks: seq<QKey>)
    requires DistinctIds(ks) && ks != []
    ensures SomeCheckFails(s, env, now, ks) <==>
            CheckFails(s, env, now, ks[0]) || SomeCheckFails(QuorumStep(s, env, now, ks[0]), env, now, ks[1..])
  {
    var s1 := QuorumStep(s, env, now, ks[0]);
    hide QuorumStep, LocalOf, CheckFails;
    forall k | k in ks[1..] ensures k in ks && (CheckFails(s, env, now, k) <==> CheckFails(s1, env, now, k)) {
      TailKeys(ks, k);
      QuorumStepFrame(s, env, now, ks[0], k.id);
      CheckFailsLocal(s, s1, env, now, k);
    }
    assert ks[0] in ks && forall k | k in ks :: k == ks[0] || k in ks[1..];
  }

  /** The quorum pass panics exactly when one of its checks, made in the store it starts from, would. */
  lemma {:induction false} QuorumPassHaltsIff(s: Store, env: Env, now: Time, ks: seq<QKey>)
    requires Inv(s) && PositiveQuorum(env) && DistinctIds(ks) && (forall k | k in ks :: k in s.quorum && k.time <= now)
    requires !s.halted
    ensures QuorumPass(s, env, now, ks).halted <==> SomeCheckFails(s, env, now, ks)
    decreases |ks|
  {
    hide Inv, QuorumStep, PositiveQuorum, CheckFails;
    if ks != [] {
      hide SomeCheckFails;
      var s1 := QuorumStep(s, env, now, ks[0]);
      QuorumStepInv(s, env, now, ks[0]);
      QuorumStepKeys(s, env, now, ks[0]);
      QuorumStepHaltsIff(s, env, now, ks[0]);
      SomeCheckShift(s, env, now, ks);
      forall k | k in ks[1..] ensures k in s1.quorum && k.time <= now { TailKeys(ks, k); }
      if s1.halted { QuorumPassSticky(s1, env, now, ks[1..]); } else { QuorumPassHaltsIff(s1, env, now, ks[1..]); }
    }
  }

  // ---------------------------------------------------------------- the block

  /**
   A block panics exactly when a proposal it drops or tallies is owed, at its turn, more than
   the gov account then holds, or a quorum check it makes divides by zero.
   */
  lemma EndBlockHaltsIff(s: Store, env: Env, now: Time)
    requires Inv(s) && PositiveQuorum(env) && !s.halted
    ensures var s1 := AfterInactive(s, env, now);
            var s2 := AfterQuorum(s1, env, now);
            EndBlock(s, env, now).halted <==>
            || SomeDropFails(s, env, now, DueKeys(s.inactive, now))
            || SomeCheckFails(s1, env, now, DueKeys(s1.quorum.Keys, now))
            || SomeTallyFails(s2, env, DueKeys(s2.active, now))
  {
    var s1, s2 := AfterInactive(s, env, now), AfterQuorum(AfterInactive(s, env, now), env, now);
    EndBlockHalted(s, env, now);
    DueInactive(s, now);
    AfterInactiveInv(s, env, now);
    DueQuorum(s1, now);
    AfterQuorumInv(s1, env, now);
    DueReady(s2, now);
    hide Inv, InactivePass, QuorumPass, ActivePass, DueKeys, Ready, PositiveQuorum, SomeDropFails, SomeCheckFails, SomeTallyFails;
    InactivePassHaltsIff(s, env, now, DueKeys(s.inactive, now));
    if s1.halted {
      QuorumPassSticky(s1, env, now, DueKeys(s1.quorum.Keys, now));
    } else {
      QuorumPassHaltsIff(s1, env, now, DueKeys(s1.quorum.Keys, now));
    }
    if s2.halted {
      ActivePassSticky(s2, env, DueKeys(s2.active, now));
    } else {
      ActivePassHaltsIff(s2, env, DueKeys(s2.active, now));
    }
  }

  // ---------------------------------------------------------------- when nothing spends from the gov account

  /** Handlers and what follows a tally do not spend from the gov account. */
  ghost predicate Spares(env: Env) {
    && (forall w: World, m :: env.handle(w, m).Some? ==> w.gov <= env.handle(w, m).value.gov)
    && (forall w: World, p, o :: w.gov <= env.afterTally(w, p, o).gov)
  }

  lemma {:induction false} RunSpares(env: Env, w: World, msgs: seq<Option<Message>>)
    requires Spares(env)
    ensures var r := RunMessages(env, w, msgs); r.Some? ==> w.gov <= r.value.gov
    decreases |msgs|
  {
    if msgs != [] && msgs[0].Some? && env.handle(w, msgs[0].value).Some? {
      RunSpares(env, env.handle(w, msgs[0].value).value, msgs[1..]);
    }
  }

  /** With the deposits covered, settling does not panic and leaves the others covered. */
  lemma SettleSolvent(s: Store, id: nat, burn: bool)
    requires Solvent(s)
    ensures var s' := SettleDeposits(s, id, burn);
            !Short(s, id) && Solvent(s') && Sum(s'.deposits) <= s.world.gov - Sum(OfProposal(s.deposits, id))
            && s'.world.gov == s.world.gov - Sum(OfProposal(s.deposits, id)) && s'.halted == s.halted
  {
    SumSplit(s.deposits, id);
    SettleShape(s, id, burn);
    hide Sum, PayBack, OfProposal, Without;
  }

  lemma SolventWith(s: Store, s': Store)
    requires Solvent(s) && s'.deposits == s.deposits && s.world.gov <= s'.world.gov
    ensures Solvent(s')
  {
    hide Sum;
  }

  lemma InactiveStepSolvent(s: Store, env: Env, now: Time, k: QKey)
    requires Inv(s) && Solvent(s) && k in s.inactive
    ensures Solvent(InactiveStep(s, env, now, k.id)) && InactiveStep(s, env, now, k.id).halted == s.halted
  {
    DepositAt(s, k);
    KnownId(s, k.id);
    DepositCounted(s, k);
    var id := k.id;
    DeleteKeeps(s, id);
    SettleSolvent(s, id, s.params.burnPrevote);
    SettleSolvent(DeleteProposal(s, id), id, s.params.burnPrevote);
    if !MeetsDeposit(s, s.proposals[id]) { DropShape(s, env, now, id); }
    hide Inv, SettleDeposits, Sum, OfProposal, Without, DeleteProposal, RequiredDeposit;
  }

  lemma ActiveStepSolvent(s: Store, env: Env, k: QKey)
    requires Inv(s) && Solvent(s) && Spares(env) && k in s.active
    ensures Solvent(ActiveStep(s, env, k.id)) && ActiveStep(s, env, k.id).halted == s.halted
  {
    VotingAt(s, k);
    ActiveStepShape(s, env, k);
    ActiveStepIs(s, env, k.id);
    var p := s.proposals[k.id];
    var o := env.tally(s.world, p, VotesOf(s, k.id));
    var s0 := s.(votes := TalliedVotes(s.votes, k.id, o.err));
    SettleSolvent(s0, k.id, o.burn);
    SettleShape(s0, k.id, o.burn);
    var s1 := SettleDeposits(s0, k.id, o.burn);
    RunSpares(env, s1.world, p.messages);
    var v := Verdict(env, s1.world, p, o);
    assert s1.world.gov <= v.1.gov by { hide ActiveStep, SettleDeposits, RunMessages, Sum; }
    hide ActiveStep, SettleDeposits, Verdict, TalliedVotes, VotesOf, Inv, Sum, OfProposal, Without;
    SolventWith(s1, ActiveStep(s, env, k.id));
  }

  lemma {:induction false} InactivePassSolvent(s: Store, env: Env, now: Time, ks: seq<QKey>)
    requires Inv(s) && Solvent(s) && DistinctIds(ks) && forall k | k in ks :: k in s.inactive
    ensures Solvent(InactivePass(s, env, now, ks)) && InactivePass(s, env, now, ks).halted == s.halted
    decreases |ks|
  {
    hide Inv, Solvent, InactiveStep;
    if ks != [] {
      var s1 := InactiveStep(s, env, now, ks[0].id);
      assert ks[0] in ks;
      InactiveStepSolvent(s, env, now, ks[0]);
      InactiveStepInv(s, env, now, ks[0]);
      forall k | k in ks[1..] ensures k in s1.inactive { TailKeys(ks, k); }
      InactivePassSolvent(s1, env, now, ks[1..]);
    }
  }

  lemma {:induction false} ActivePassSolvent(s: Store, env: Env, ks: seq<QKey>)
    requires Inv(s) && Solvent(s) && Spares(env) && Ready(s, ks)
    ensures Solvent(ActivePass(s, env, ks)) && ActivePass(s, env, ks).halted == s.halted
    decreases |ks|
  {
    hide Inv, Solvent, ActiveStep, Ready, Spares;
    if ks != [] {
      ReadyHead(s, ks);
      ActiveStepSolvent(s, env, ks[0]);
      ReadyTail(s, env, ks);
      ActivePassSolvent(ActiveStep(s, env, ks[0].id), env, ks[1..]);
    }
  }

  /**
   A block does not panic that starts with all deposits covered and with room for its checks, and
   whose messages do not spend from the gov account; and it leaves things so.
   */
  lemma EndBlockSolvent(s: Store, env: Env, now: Time)
    requires Inv(s) && PositiveQuorum(env) && Spares(env) && Solvent(s) && Roomy(s)
    ensures Solvent(EndBlock(s, env, now)) && EndBlock(s, env, now).halted == s.halted && Roomy(EndBlock(s, env, now))
  {
    var s1, s2 := AfterInactive(s, env, now), AfterQuorum(AfterInactive(s, env, now), env, now);
    DueInactive(s, now);
    AfterInactiveInv(s, env, now);
    DueQuorum(s1, now);
    AfterQuorumInv(s1, env, now);
    DueReady(s2, now);
    hide Inv, InactivePass, QuorumPass, ActivePass, DueKeys, Ready, PositiveQuorum, Spares, Solvent, Roomy;
    EndBlockRoom(s, env, now);
    EndBlockHalted(s, env, now);
    InactivePassSolvent(s, env, now, DueKeys(s.inactive, now));
    QuorumPassMoney(s1, env, now, DueKeys(s1.quorum.Keys, now));
    StillCovered(s1, s2);
    ActivePassSolvent(s2, env, DueKeys(s2.active, now));
    StillCovered(AfterActive(s2, env, now), EndBlock(s, env, now));
  }

  lemma StillCovered(s: Store, s': Store)
    requires s'.deposits == s.deposits && s'.world == s.world
    ensures Solvent(s) ==> Solvent(s')
  {
  }

  /** Transactions keep the deposits covered, and their panics are recovered. */
  lemma ApplyAllSolvent(s: Store, env: Env, now: Time, txs: seq<Tx>)
    requires Inv(s) && DaoParamsOk(s.dao) && Solvent(s) && !s.halted
    ensures Solvent(ApplyAll(s, env, now, txs)) && !ApplyAll(s, env, now, txs).halted
  {
    var s', f := ApplyAll(s, env, now, txs), TxFlows(s, env, now, txs);
    ApplyAllFlow(s, env, now, txs);
    NothingSpentByTxs(s, env, now, txs);
    hide Inv, DaoParamsOk, ApplyAll, TxFlows, Accounts, Booked;
    SolventAfterIff(s, s', f);
    StillRoom(Sum(s.deposits), s.world.gov, f);
  }

  lemma StillRoom(owed: Coins, held: Coins, f: Flow)
    requires owed <= held && f.spent == multiset{}
    ensures owed + f.spent <= held + f.gained
  {
    forall d: Denom ensures (owed + f.spent)[d] <= (held + f.gained)[d] { assert owed[d] <= held[d]; }
  }

  predicate RoomyBlocks(bs: seq<Block>) {
    forall b | b in bs :: RoomyTxs(b.txs)
  }

  /**
   No run panics that starts with its deposits covered and with room for its checks, whose parameter
   updates leave that room, and whose messages do not spend from the gov account.
   */
  lemma {:induction false} NoRunPanics(s: Store, env: Env, bs: seq<Block>, last: Time)
    requires Good(s, last) && PositiveQuorum(env) && Spares(env) && Timely(last, bs) && RoomyBlocks(bs)
    requires Solvent(s) && Roomy(s) && !s.halted
    ensures Solvent(Run(s, env, bs)) && Roomy(Run(s, env, bs)) && !Run(s, env, bs).halted
    decreases |bs|
  {
    hide Inv, PositiveQuorum, Spares, ApplyAll, EndBlock, Solvent, DaoParamsOk, Roomy, RoomyTxs;
    if bs != [] {
      assert bs[0] in bs && forall b | b in bs[1..] :: b in bs;
      var b, s1 := bs[0], ApplyAll(s, env, bs[0].time, bs[0].txs);
      ApplyAllInv(s, env, b.time, b.txs, last);
      ApplyAllSolvent(s, env, b.time, b.txs);
      ApplyAllRoom(s, env, b.time, b.txs);
      EndBlockSolvent(s1, env, b.time);
      StepGood(s, env, b, last);
      NoRunPanics(Step(s, env, b), env, bs[1..], b.time);
    }
  }
}
