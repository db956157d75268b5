/**
 Room for the quorum checks.  While the parameters leave a nanosecond for each check, which
 validation does not demand, so does every entry of the quorum-check queue, whatever happens to
 the ends of the votes; and with that room no check divides by zero.
 */
module GovRoom {
  import opened Options
  import opened GovTypes
  import opened CoinSums
  import opened GovQueue
  import opened GovStore
  import opened GovEndBlock
  import opened GovInvariants
  import opened GovBlock
  import opened GovScan
  import opened GovFate
  import opened GovTx
  import opened CoreDaos
  import opened GovSteps
  import opened GovRuns
  import opened GovHistory

  predicate RoomyParams(g: GovParams) {
    g.checkCount <= g.votingPeriod - g.quorumTimeout || g.checkCount == 0
  }

  /** The time from the entry's timeout to the end of the vote holds as many nanoseconds as checks. */
  predicate HasRoom(e: QuorumEntry, p: Proposal) {
    p.votingEnd.Some? ==> e.count <= p.votingEnd.value - e.timeout
  }

  ghost predicate RoomyQueue(quorum: map<QKey, QuorumEntry>, proposals: map<nat, Proposal>) {
    forall k | k in quorum :: k.id in proposals ==> HasRoom(quorum[k], proposals[k.id])
  }

  ghost predicate Roomy(s: Store) {
    RoomyParams(s.params) && RoomyQueue(s.quorum, s.proposals)
  }

  // ---------------------------------------------------------------- EndBlock

  lemma NoneOf(s: Store, id: nat)
    requires Inv(s) && id in s.proposals && s.proposals[id].status == DepositPeriod
    ensures forall k | k in s.quorum :: k.id != id
  {
    NoEntries(s, id);
    hide Inv;
    assert forall k | k in s.quorum && k.id == id :: k in EntriesOf(s.quorum, id);
  }

  lemma RoomAdded(quorum: map<QKey, QuorumEntry>, proposals: map<nat, Proposal>, p: Proposal, k: QKey, e: QuorumEntry)
    requires RoomyQueue(quorum, proposals) && forall x | x in quorum :: x.id != k.id
    ensures RoomyQueue(quorum, proposals[k.id := p])
    ensures HasRoom(e, p) ==> RoomyQueue(quorum[k := e], proposals[k.id := p])
  {
    hide HasRoom;
  }

  lemma ActivateRoom(s: Store, env: Env, now: Time, id: nat)
    requires Inv(s) && Roomy(s) && id in s.proposals && s.proposals[id].status == DepositPeriod
    ensures Roomy(Activate(s, env, now, id))
  {
    NoneOf(s, id);
    hide Inv, HasRoom, RoomyQueue, RoomyParams;
    var p, timeout := VotingProposal(s.proposals[id], now, s.params.votingPeriod), now + s.params.quorumTimeout;
    FreshRoom(s.params, now, p);
    RoomAdded(s.quorum, s.proposals, p, QKey(timeout, id), QuorumEntry(timeout, s.params.checkCount, 0));
  }

  lemma FreshRoom(g: GovParams, now: Time, p: Proposal)
    requires RoomyParams(g) && p.votingEnd == Some(now + g.votingPeriod)
    ensures g.checkCount > 0 ==> HasRoom(QuorumEntry(now + g.quorumTimeout, g.checkCount, 0), p)
  {
  }

  lemma InactiveStepRoom(s: Store, env: Env, now: Time, k: QKey)
    requires Inv(s) && Roomy(s) && k in s.inactive
    ensures Roomy(InactiveStep(s, env, now, k.id))
  {
    DepositAt(s, k);
    KnownId(s, k.id);
    if MeetsDeposit(s, s.proposals[k.id]) {
      ActivateRoom(s, env, now, k.id);
      hide Inv, Roomy, Activate;
    } else {
      DropShape(s, env, now, k.id);
      hide Inv, InactiveStep, Short, Without, HasRoom;
    }
  }

  lemma {:induction false} InactivePassRoom(s: Store, env: Env, now: Time, ks: seq<QKey>)
    requires Inv(s) && Roomy(s) && DistinctIds(ks) && forall k | k in ks :: k in s.inactive
    ensures Roomy(InactivePass(s, env, now, ks))
    decreases |ks|
  {
    hide Inv, Roomy, InactiveStep;
    if ks != [] {
      var s1 := InactiveStep(s, env, now, ks[0].id);
      assert ks[0] in ks;
      InactiveStepRoom(s, env, now, ks[0]);
      InactiveStepInv(s, env, now, ks[0]);
      forall k | k in ks[1..] ensures k in s1.inactive { TailKeys(ks, k); }
      InactivePassRoom(s1, env, now, ks[1..]);
    }
  }

  lemma EffectRoom(s: Store, now: Time, k: QKey, eff: QuorumEffect)
    requires QuorumQueue(s) && Roomy(s) && k in s.quorum && s.proposals[k.id].votingEnd.Some? && EffectOk(s, now, k, eff)
    ensures Roomy(ApplyEffect(s, now, k, eff))
    ensures eff != Crashed
  {
    assert HasRoom(s.quorum[k], s.proposals[k.id]);
  }

  lemma QuorumStepRoom(s: Store, env: Env, now: Time, k: QKey)
    requires Inv(s) && Roomy(s) && k in s.quorum && k.time <= now
    ensures Roomy(QuorumStep(s, env, now, k)) && QuorumStep(s, env, now, k).halted == s.halted
  {
    EntryHasEnd(s, k);
    EffectIsOk(s, env, now, k);
    hide EffectOf, Queues, VotesOk, Records, Roomy, ApplyEffect, EffectOk;
    EffectRoom(s, now, k, EffectOf(s, env, now, k));
    EffectVotes(s, now, k, EffectOf(s, env, now, k));
  }

  /** With room for the checks no quorum check panics. */
  lemma {:induction false} QuorumPassRoom(s: Store, env: Env, now: Time, ks: seq<QKey>)
    requires Inv(s) && Roomy(s) && PositiveQuorum(env)
    requires DistinctIds(ks) && forall k | k in ks :: k in s.quorum && k.time <= now
    ensures Roomy(QuorumPass(s, env, now, ks)) && QuorumPass(s, env, now, ks).halted == s.halted
    decreases |ks|
  {
    hide Inv, Roomy, QuorumStep, PositiveQuorum;
    if ks != [] {
      var s1 := QuorumStep(s, env, now, ks[0]);
      QuorumStepInv(s, env, now, ks[0]);
      QuorumStepKeys(s, env, now, ks[0]);
      QuorumStepRoom(s, env, now, ks[0]);
      forall k | k in ks[1..] ensures k in s1.quorum && k.time <= now { TailKeys(ks, k); }
      QuorumPassRoom(s1, env, now, ks[1..]);
    }
  }

  lemma {:induction false} ActivePassRoom(s: Store, env: Env, ks: seq<QKey>)
    requires Inv(s) && Roomy(s) && Ready(s, ks)
    ensures Roomy(ActivePass(s, env, ks))
    decreases |ks|
  {
    hide Inv, ActiveStep, Ready, Roomy;
    if ks != [] {
      ActiveStepRoom(s, env, ks);
      ReadyTail(s, env, ks);
      ActivePassRoom(ActiveStep(s, env, ks[0].id), env, ks[1..]);
    }
  }

  lemma ActiveStepRoom(s: Store, env: Env, ks: seq<QKey>)
    requires Inv(s) && Roomy(s) && Ready(s, ks) && ks != []
    ensures Roomy(ActiveStep(s, env, ks[0].id))
  {
    assert ks[0] in ks;
    VotingAt(s, ks[0]);
    ActiveStepShape(s, env, ks[0]);
    hide Inv, ActiveStep, Short, Without;
  }

  lemma EndBlockRoom(s: Store, env: Env, now: Time)
    requires Inv(s) && Roomy(s) && PositiveQuorum(env)
    ensures Roomy(AfterInactive(s, env, now)) && Roomy(EndBlock(s, env, now))
    ensures var s1 := AfterInactive(s, env, now); AfterQuorum(s1, env, now).halted == s1.halted
  {
    DueInactive(s, now);
    AfterInactiveInv(s, env, now);
    var s1 := AfterInactive(s, env, now);
    DueQuorum(s1, now);
    AfterQuorumInv(s1, env, now);
    var s2 := AfterQuorum(s1, env, now);
    DueReady(s2, now);
    hide Inv, InactivePass, QuorumPass, ActivePass, DueKeys, Ready, PositiveQuorum, RoomyQueue;
    InactivePassRoom(s, env, now, DueKeys(s.inactive, now));
    QuorumPassRoom(s1, env, now, DueKeys(s1.quorum.Keys, now));
    ActivePassRoom(s2, env, DueKeys(s2.active, now));
  }

  // ---------------------------------------------------------------- transactions

  lemma DepositRoom(s: Store, env: Env, now: Time, id: nat, who: Address, amount: Coins, skip: bool)
    requires Inv(s) && Roomy(s)
    ensures var r := Deposit(s, env, now, id, who, amount, skip); r.Done? ==> Roomy(r.store)
  {
    hide Inv, RatioChecked, MeetsRatio, RequiredDeposit, Activate, Roomy;
    if Deposit(s, env, now, id, who, amount, skip).Done? {
      var s1 := PaidStore(s, id, who, amount);
      DepositedOrder(s, env, now, id, who, amount);
      PaidInv(s, id, who, amount);
      PaidRoom(s, id, who, amount);
      hide Deposited, PaidStore;
      if MeetsDeposit(s1, s1.proposals[id]) { ActivateRoom(s1, env, now, id); }
    }
  }

  lemma PaidRoom(s: Store, id: nat, who: Address, amount: Coins)
    requires Roomy(s) && id in s.proposals
    ensures Roomy(PaidStore(s, id, who, amount)) && id in PaidStore(s, id, who, amount).proposals
  {
    hide AddAt, Pay;
  }

  lemma SubmitRoom(s: Store, now: Time, messages: seq<Option<Message>>)
    requires Inv(s) && Roomy(s)
    ensures Roomy(Submit(s, now, messages))
  {
    FreshProposal(s);
    hide IndexesActive, IndexesInactive, Records;
  }

  /** A started proposal's end only moves forward, so its entry keeps its room. */
  lemma StartedRoom(s: Store, s': Store, k: QKey)
    requires RoomyQueue(s.quorum, s.proposals) && k in s.quorum && k in s'.quorum && s'.quorum[k] == s.quorum[k]
    requires Forward(s, s', k.id) && s.proposals[k.id].votingEnd.Some?
    ensures HasRoom(s'.quorum[k], s'.proposals[k.id])
  {
    assert HasRoom(s.quorum[k], s.proposals[k.id]);
  }

  lemma SameQueueRoom(s: Store, env: Env, now: Time, tx: Tx)
    requires Inv(s) && Roomy(s) && DaoParamsOk(s.dao) && !tx.Submission? && !tx.Depositing?
    ensures RoomyQueue(Apply(s, env, now, tx).quorum, Apply(s, env, now, tx).proposals)
  {
    ApplyKeepsEntries(s, env, now, tx);
    hide Apply, Inv, HasRoom, DaoParamsOk, RoomyQueue;
    var s' := Apply(s, env, now, tx);
    forall k | k in s'.quorum ensures k.id in s'.proposals ==> HasRoom(s'.quorum[k], s'.proposals[k.id]) {
      EntryStarted(s, k);
      ApplyStarted(s, env, now, tx, k.id);
      StartedRoom(s, s', k);
    }
    RoomyFrom(s'.quorum, s'.proposals);
  }

  lemma RoomyFrom(quorum: map<QKey, QuorumEntry>, proposals: map<nat, Proposal>)
    requires forall k | k in quorum :: k.id in proposals ==> HasRoom(quorum[k], proposals[k.id])
    ensures RoomyQueue(quorum, proposals)
  {
  }

  lemma EntryStarted(s: Store, k: QKey)
    requires Inv(s) && k in s.quorum
    ensures Started(s, k.id) && s.proposals[k.id].votingEnd.Some?
  {
  }

  lemma ApplyRoom(s: Store, env: Env, now: Time, tx: Tx)
    requires Inv(s) && Roomy(s) && DaoParamsOk(s.dao) && (tx.NewGovParams? ==> RoomyParams(tx.params))
    ensures Roomy(Apply(s, env, now, tx))
  {
    match tx
    case Submission(messages, _, proposer, amount) =>
      hide Inv, Roomy, Submit, Deposit;
      SubmitInv(s, now, messages);
      SubmitRoom(s, now, messages);
      DepositRoom(Submit(s, now, messages), env, now, s.nextId, proposer, amount, true);
    case Depositing(id, who, amount) =>
      hide Inv, Roomy, Deposit;
      DepositRoom(s, env, now, id, who, amount, false);
    case _ =>
      SameQueueRoom(s, env, now, tx);
      ApplyParamsOr(s, env, now, tx);
      hide Apply, Inv, RoomyQueue, RoomyParams;
  }

  lemma ApplyParamsOr(s: Store, env: Env, now: Time, tx: Tx)
    requires !tx.Submission? && !tx.Depositing?
    ensures var g := Apply(s, env, now, tx).params; g == s.params || (tx.NewGovParams? && g == tx.params)
  {
    hide GovStore.SettleDeposits, Allowed, RequiredDeposit;
    if tx.Vetoing? && tx.id in s.proposals { SettleKeeps(s, tx.id, tx.burn); }
  }

  /** Updates of the gov parameters leave a nanosecond for each check. */
  predicate RoomyTxs(txs: seq<Tx>) {
    forall tx | tx in txs :: tx.NewGovParams? ==> RoomyParams(tx.params)
  }

  lemma {:induction false} ApplyAllRoom(s: Store, env: Env, now: Time, txs: seq<Tx>)
    requires Inv(s) && Roomy(s) && DaoParamsOk(s.dao) && RoomyTxs(txs)
    ensures Roomy(ApplyAll(s, env, now, txs))
    decreases |txs|
  {
    hide Inv, Apply, DaoParamsOk, Roomy, RoomyParams;
    if txs != [] {
      assert txs[0] in txs && forall tx | tx in txs[1..] :: tx in txs;
      ApplyInv(s, env, now, txs[0]);
      ApplyDao(s, env, now, txs[0]);
      ApplyRoom(s, env, now, txs[0]);
      ApplyAllRoom(Apply(s, env, now, txs[0]), env, now, txs[1..]);
    }
  }
}
