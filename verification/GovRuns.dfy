/**
 Runs of the chain: blocks of transactions, each followed by EndBlock.  What holds in every
 state a run can reach, and what becomes of a proposal over a whole run.
 */
module GovRuns {
  import opened Options
  import opened GovTypes
  import opened CoinSums
  import opened GovQueue
  import opened GovStore
  import opened GovEndBlock
  import opened GovInvariants
  import opened GovBlock
  import opened GovScan
  import opened GovFate
  import opened GovMoney
  import opened GovChecks
  import opened GovTx
  import opened CoreDaos
  import opened GovSteps

  datatype Block = Block(time: Time, txs: seq<Tx>)

  ghost function ApplyAll(s: Store, env: Env, now: Time, txs: seq<Tx>): Store
    decreases |txs|
  {
    if txs == [] then s else ApplyAll(Apply(s, env, now, txs[0]), env, now, txs[1..])
  }

  ghost function Step(s: Store, env: Env, b: Block): Store {
    EndBlock(ApplyAll(s, env, b.time, b.txs), env, b.time)
  }

  ghost function Run(s: Store, env: Env, bs: seq<Block>): Store
    decreases |bs|
  {
    if bs == [] then s else Run(Step(s, env, bs[0]), env, bs[1..])
  }

  /** Block times increase. */
  predicate Timely(last: Time, bs: seq<Block>)
    decreases |bs|
  {
    bs == [] || (last < bs[0].time && Timely(bs[0].time, bs[1..]))
  }

  /** A state between blocks, the last of which had the time last. */
  ghost predicate Good(s: Store, last: Time) {
    Inv(s) && DaoParamsOk(s.dao) && Clear(s, last)
  }

  // ---------------------------------------------------------------- invariants of every run

  /** The store of a new chain is a good start for a run, and its deposits are covered. */
  lemma EmptyGood(world: World, params: GovParams, dao: DaoParams, last: Time)
    requires ParamsOk(params) && DaoParamsOk(dao)
    ensures var s := EmptyStore(world, params, dao); Good(s, last) && Solvent(s) && !s.halted
  {
    var none: map<DKey, Coins> := map[];
    SumEmpty(none);
  }

  lemma DepositDao(s: Store, env: Env, now: Time, id: nat, who: Address, amount: Coins, skip: bool)
    ensures var r := Deposit(s, env, now, id, who, amount, skip); r.Done? ==> r.store.dao == s.dao
  {
    hide MeetsDeposit, RatioChecked, MeetsRatio, RequiredDeposit, Pay, AddAt;
  }

  lemma ApplyDao(s: Store, env: Env, now: Time, tx: Tx)
    requires DaoParamsOk(s.dao)
    ensures DaoParamsOk(Apply(s, env, now, tx).dao)
    ensures !tx.NewDaoParams? ==> Apply(s, env, now, tx).dao == s.dao
  {
    hide Deposit, GovStore.SettleDeposits, Allowed, RequiredDeposit;
    match tx
    case Submission(messages, _, proposer, amount) =>
      DepositDao(Submit(s, now, messages), env, now, s.nextId, proposer, amount, true);
    case Depositing(id, who, amount) => DepositDao(s, env, now, id, who, amount, false);
    case Vetoing(_, id, burn) => if id in s.proposals { SettleKeeps(s, id, burn); }
    case _ =>
  }

  lemma DepositedEntries(s: Store, env: Env, now: Time, id: nat, who: Address, amount: Coins)
    requires id in s.proposals && (s.params.checkCount > 0 ==> s.params.quorumTimeout >= 0)
    ensures forall k | k in Deposited(s, env, now, id, who, amount).quorum :: k in s.quorum || k.time >= now
  {
    hide MeetsDeposit, Pay, AddAt;
  }

  lemma ApplyKeepsEntries(s: Store, env: Env, now: Time, tx: Tx)
    requires !tx.Submission? && !tx.Depositing?
    ensures Apply(s, env, now, tx).quorum == s.quorum
  {
    hide GovStore.SettleDeposits, Allowed, RequiredDeposit;
    if tx.Vetoing? && tx.id in s.proposals { SettleKeeps(s, tx.id, tx.burn); }
  }

  lemma DepositEntries(s: Store, env: Env, now: Time, id: nat, who: Address, amount: Coins, skip: bool)
    requires s.params.checkCount > 0 ==> s.params.quorumTimeout >= 0
    ensures var r := Deposit(s, env, now, id, who, amount, skip);
            r.Done? ==> forall k | k in r.store.quorum :: k in s.quorum || k.time >= now
  {
    hide Deposited, RatioChecked, MeetsRatio, RequiredDeposit;
    if id in s.proposals { DepositedEntries(s, env, now, id, who, amount); }
  }

  /** Quorum-check entries that lie after a time still do so after a transaction at a later time. */
  lemma ApplyEntriesAfter(s: Store, env: Env, now: Time, tx: Tx, last: Time)
    requires Inv(s) && last < now && forall k | k in s.quorum :: k.time > last
    ensures forall k | k in Apply(s, env, now, tx).quorum :: k.time > last
  {
    ValidParams(s);
    hide Inv;
    match tx
    case Depositing(id, who, amount) => DepositEntries(s, env, now, id, who, amount, false); hide Deposit;
    case Submission(messages, minInitial, proposer, amount) =>
      DepositEntries(Submit(s, now, messages), env, now, s.nextId, proposer, amount, true);
      hide Deposit;
    case _ => ApplyKeepsEntries(s, env, now, tx); hide Apply;
  }

  lemma {:induction false} ApplyAllInv(s: Store, env: Env, now: Time, txs: seq<Tx>, last: Time)
    requires Inv(s) && DaoParamsOk(s.dao) && last < now && forall k | k in s.quorum :: k.time > last
    ensures var s' := ApplyAll(s, env, now, txs);
            Inv(s') && DaoParamsOk(s'.dao) && forall k | k in s'.quorum :: k.time > last
    decreases |txs|
  {
    hide Inv, Apply, DaoParamsOk;
    if txs != [] {
      ApplyInv(s, env, now, txs[0]);
      ApplyDao(s, env, now, txs[0]);
      ApplyEntriesAfter(s, env, now, txs[0], last);
      ApplyAllInv(Apply(s, env, now, txs[0]), env, now, txs[1..], last);
    }
  }

  lemma {:induction false} InactivePassDao(s: Store, env: Env, now: Time, ks: seq<QKey>)
    ensures InactivePass(s, env, now, ks).dao == s.dao && InactivePass(s, env, now, ks).nextId == s.nextId
    decreases |ks|
  {
    if ks != [] {
      InactiveStepDao(s, env, now, ks[0].id);
      hide InactiveStep;
      InactivePassDao(InactiveStep(s, env, now, ks[0].id), env, now, ks[1..]);
    }
  }

  lemma InactiveStepDao(s: Store, env: Env, now: Time, id: nat)
    ensures InactiveStep(s, env, now, id).dao == s.dao && InactiveStep(s, env, now, id).nextId == s.nextId
  {
    hide GovStore.SettleDeposits, RequiredDeposit, Activate, GovStore.DeleteProposal;
    DeleteKeeps(s, id);
    SettleKeeps(GovStore.DeleteProposal(s, id), id, s.params.burnPrevote);
    ActivateDao(s, env, now, id);
  }

  lemma ActivateDao(s: Store, env: Env, now: Time, id: nat)
    ensures Activate(s, env, now, id).dao == s.dao && Activate(s, env, now, id).nextId == s.nextId
  {
  }

  lemma EndBlockDao(s: Store, env: Env, now: Time)
    ensures EndBlock(s, env, now).dao == s.dao && EndBlock(s, env, now).nextId == s.nextId
    ensures AfterInactive(s, env, now).nextId == s.nextId
  {
    hide InactivePass, QuorumPass, ActivePass, DueKeys;
    var s1, s2 := AfterInactive(s, env, now), AfterQuorum(AfterInactive(s, env, now), env, now);
    InactivePassDao(s, env, now, DueKeys(s.inactive, now));
    QuorumPassInactive(s1, env, now, DueKeys(s1.quorum.Keys, now));
    ActivePassInactive(s2, env, DueKeys(s2.active, now));
  }

  /** A block leads from a good state to a good state. */
  lemma StepGood(s: Store, env: Env, b: Block, last: Time)
    requires Good(s, last) && PositiveQuorum(env) && last < b.time
    ensures Good(Step(s, env, b), b.time)
  {
    hide Inv, ApplyAll, EndBlock, PositiveQuorum, DaoParamsOk;
    ApplyAllInv(s, env, b.time, b.txs, last);
    EndBlockInv(ApplyAll(s, env, b.time, b.txs), env, b.time);
    EndBlockDao(ApplyAll(s, env, b.time, b.txs), env, b.time);
  }

  function LastTime(last: Time, bs: seq<Block>): Time {
    if bs == [] then last else bs[|bs| - 1].time
  }

  lemma {:induction false} RunGood(s: Store, env: Env, bs: seq<Block>, last: Time)
    requires Good(s, last) && PositiveQuorum(env) && Timely(last, bs)
    ensures Good(Run(s, env, bs), LastTime(last, bs))
    decreases |bs|
  {
    hide Good, PositiveQuorum, Step;
    if bs != [] {
      StepGood(s, env, bs[0], last);
      RunGood(Step(s, env, bs[0]), env, bs[1..], bs[0].time);
    }
  }

  /**
   The queues in every reachable state: the active queue is the set of voting proposals by
   their ends, the inactive queue the set of those in deposit period by theirs; an id occurs
   once, the counters are the sizes, and nothing that is due is left.
   */
  lemma QueuesInEveryRun(s: Store, env: Env, bs: seq<Block>, last: Time)
    requires Good(s, last) && PositiveQuorum(env) && Timely(last, bs)
    ensures var r := Run(s, env, bs);
            && (forall t, id :: QKey(t, id) in r.active <==>
                  id in r.proposals && r.proposals[id].status == VotingPeriod && r.proposals[id].votingEnd == Some(t))
            && (forall t, id :: QKey(t, id) in r.inactive <==>
                  id in r.proposals && r.proposals[id].status == DepositPeriod && r.proposals[id].depositEnd == t)
            && (forall k, k' | k in r.active && k' in r.active && k.id == k'.id :: k == k')
            && r.nActive == |r.active| && r.nInactive == |r.inactive|
            && Clear(r, LastTime(last, bs))
  {
    RunGood(s, env, bs, last);
    hide Run;
  }

  /** The quorum-check queue in every reachable state. */
  lemma EntriesInEveryRun(s: Store, env: Env, bs: seq<Block>, last: Time)
    requires Good(s, last) && PositiveQuorum(env) && Timely(last, bs)
    ensures var r := Run(s, env, bs);
            forall k | k in r.quorum ::
              && k.id in r.proposals
              && (r.proposals[k.id].status == VotingPeriod || r.proposals[k.id].status == Vetoed)
              && r.proposals[k.id].votingEnd.Some? && LastTime(last, bs) < k.time <= r.proposals[k.id].votingEnd.value
              && r.quorum[k].done <= r.quorum[k].count
              && forall x | x in r.quorum && x.id == k.id :: x == k
  {
    RunGood(s, env, bs, last);
    hide Run;
  }

  // ---------------------------------------------------------------- closed proposals

  lemma {:induction false} ApplyAllClosed(s: Store, env: Env, now: Time, txs: seq<Tx>, id: nat)
    requires Inv(s) && DaoParamsOk(s.dao) && id in s.proposals && !Open(s.proposals[id])
    ensures var s' := ApplyAll(s, env, now, txs);
            ProposalOf(s'.proposals, id) == Some(s.proposals[id]) && EntriesOf(s'.quorum, id) == EntriesOf(s.quorum, id)
    decreases |txs|
  {
    hide Inv, Apply, DaoParamsOk, EntriesOf;
    if txs != [] {
      ApplyInv(s, env, now, txs[0]);
      ApplyDao(s, env, now, txs[0]);
      ApplyClosed(s, env, now, txs[0], id);
      ApplyAllClosed(Apply(s, env, now, txs[0]), env, now, txs[1..], id);
    }
  }

  lemma StepClosed(s: Store, env: Env, b: Block, last: Time, id: nat)
    requires Good(s, last) && PositiveQuorum(env) && last < b.time && id in s.proposals && !Open(s.proposals[id])
    ensures id in Step(s, env, b).proposals && Step(s, env, b).proposals[id] == s.proposals[id]
  {
    hide Inv, ApplyAll, EndBlock, PositiveQuorum, DaoParamsOk, EntriesOf, OfProposal;
    var s1 := ApplyAll(s, env, b.time, b.txs);
    ApplyAllInv(s, env, b.time, b.txs, last);
    ApplyAllClosed(s, env, b.time, b.txs, id);
    ClosedFate(s1, env, b.time, id);
  }

  /** A passed, rejected, failed or vetoed proposal never changes again, in particular never votes again. */
  lemma {:induction false} FinalForever(s: Store, env: Env, bs: seq<Block>, last: Time, id: nat)
    requires Good(s, last) && PositiveQuorum(env) && Timely(last, bs)
    requires id in s.proposals && !Open(s.proposals[id])
    ensures var r := Run(s, env, bs);
            id in r.proposals && r.proposals[id] == s.proposals[id] && forall k | k in r.active :: k.id != id
    decreases |bs|
  {
    if bs == [] {
      forall k | k in s.active ensures k.id != id {}
    } else {
      hide Good, PositiveQuorum, Step;
      StepGood(s, env, bs[0], last);
      StepClosed(s, env, bs[0], last, id);
      FinalForever(Step(s, env, bs[0]), env, bs[1..], bs[0].time, id);
    }
  }

  // ---------------------------------------------------------------- a voting proposal in one block

  /** The voting proposal between two states: vetoed, or its end moved by the DAOs some times within the limit. */
  ghost predicate VotingThrough(s: Store, s': Store, id: nat) {
    && id in s.proposals && id in s'.proposals
    && (IsVoting(s', id) || s'.proposals[id].status == Vetoed)
    && EntriesOf(s'.quorum, id) == EntriesOf(s.quorum, id)
    && var p, p' := s.proposals[id], s'.proposals[id];
    && p.votingEnd.Some? && p'.votingEnd.Some? && p.timesExtended <= p'.timesExtended
    && (p.timesExtended < p'.timesExtended ==> p'.timesExtended <= s.dao.limit)
    && p'.votingEnd.value == p.votingEnd.value + (p'.timesExtended - p.timesExtended) * s.dao.duration
  }

  predicate NoDaoParams(txs: seq<Tx>) {
    forall tx | tx in txs :: !tx.NewDaoParams?
  }

  lemma VotingRefl(s: Store, id: nat)
    requires Inv(s) && IsVoting(s, id)
    ensures VotingThrough(s, s, id)
  {
    VotingAtId(s, id);
  }

  lemma VotingCompose(s: Store, s1: Store, s2: Store, id: nat, granted: bool)
    requires VotingTo(s, s1, id, granted) && VotingThrough(s1, s2, id) && s1.dao == s.dao
    ensures VotingThrough(s, s2, id)
  {
    hide EntriesOf;
    var a, b, c := s.proposals[id].timesExtended, s1.proposals[id].timesExtended, s2.proposals[id].timesExtended;
    if b == a + 1 {
      assert (c - a) * s.dao.duration == s.dao.duration + (c - b) * s.dao.duration;
    }
  }

  lemma ClosedThrough(s: Store, s1: Store, s2: Store, id: nat, granted: bool)
    requires VotingTo(s, s1, id, granted) && s1.proposals[id].status == Vetoed
    requires ProposalOf(s2.proposals, id) == Some(s1.proposals[id]) && EntriesOf(s2.quorum, id) == EntriesOf(s1.quorum, id)
    ensures VotingThrough(s, s2, id)
  {
    hide EntriesOf;
  }

  lemma {:induction false} ApplyAllVoting(s: Store, env: Env, now: Time, txs: seq<Tx>, id: nat)
    requires Inv(s) && DaoParamsOk(s.dao) && IsVoting(s, id) && NoDaoParams(txs)
    ensures VotingThrough(s, ApplyAll(s, env, now, txs), id) && ApplyAll(s, env, now, txs).dao == s.dao
    decreases |txs|
  {
    hide Inv, Apply, DaoParamsOk, VotingTo, VotingThrough;
    if txs == [] {
      VotingRefl(s, id);
    } else {
      assert txs[0] in txs && forall tx | tx in txs[1..] :: tx in txs;
      var s1 := Apply(s, env, now, txs[0]);
      ApplyInv(s, env, now, txs[0]);
      ApplyDao(s, env, now, txs[0]);
      ApplyVoting(s, env, now, txs[0], id);
      VotingToIn(s, s1, id, Grants(s, txs[0], id));
      if IsVoting(s1, id) {
        ApplyAllVoting(s1, env, now, txs[1..], id);
        VotingCompose(s, s1, ApplyAll(s1, env, now, txs[1..]), id, Grants(s, txs[0], id));
      } else {
        ApplyAllClosed(s1, env, now, txs[1..], id);
        ClosedThrough(s, s1, ApplyAll(s1, env, now, txs[1..]), id, Grants(s, txs[0], id));
        ApplyAllDao(s1, env, now, txs[1..]);
      }
    }
  }

  lemma VotingToIn(s: Store, s1: Store, id: nat, granted: bool)
    requires VotingTo(s, s1, id, granted)
    ensures id in s1.proposals && (IsVoting(s1, id) || s1.proposals[id].status == Vetoed)
  {
  }

  lemma {:induction false} ApplyAllDao(s: Store, env: Env, now: Time, txs: seq<Tx>)
    requires DaoParamsOk(s.dao) && NoDaoParams(txs)
    ensures ApplyAll(s, env, now, txs).dao == s.dao
    decreases |txs|
  {
    hide Apply, DaoParamsOk;
    if txs != [] {
      assert txs[0] in txs && forall tx | tx in txs[1..] :: tx in txs;
      ApplyDao(s, env, now, txs[0]);
      ApplyAllDao(Apply(s, env, now, txs[0]), env, now, txs[1..]);
    }
  }

  // ---------------------------------------------------------------- a voting proposal in EndBlock

  /** What EndBlock does to a voting proposal, given whether one of its checks finds a late quorum. */
  ghost predicate VotingEnds(s: Store, s': Store, now: Time, id: nat, late: bool) {
    && id in s.proposals && id in s'.proposals
    && var p, p' := s.proposals[id], s'.proposals[id];
    && p.votingEnd.Some? && p'.votingEnd.Some?
    && p' == p.(status := p'.status, tally := p'.tally, votingEnd := p'.votingEnd)
    && p'.votingEnd.value == (if late then now + s.params.extension else p.votingEnd.value)
    && (late ==> p'.votingEnd.value > p.votingEnd.value)
    && (if p'.votingEnd.value <= now then Closed(p'.status) else p'.status == VotingPeriod)
  }

  /** What EndBlock does to its quorum-check entries. */
  ghost predicate EntriesUsed(m: map<QKey, QuorumEntry>, m': map<QKey, QuorumEntry>, due: bool, late: bool) {
    && (late ==> due && m' == map[])
    && (m == map[] ==> m' == map[])
    && ChecksLeft(m') + One(due) <= ChecksLeft(m)
  }

  lemma CheckDueLocal(s: Store, s1: Store, now: Time, id: nat)
    requires EntriesOf(s.quorum, id) == EntriesOf(s1.quorum, id)
    ensures CheckDue(s, now, id) <==> CheckDue(s1, now, id)
  {
    if k :| k in s.quorum && k.id == id && k.time <= now { assert k in EntriesOf(s.quorum, id); }
    if k :| k in s1.quorum && k.id == id && k.time <= now { assert k in EntriesOf(s1.quorum, id); }
  }

  /** The entries after the active pass: those the quorum checks left, or none for a closed proposal. */
  lemma EndBlockEntries(s: Store, env: Env, now: Time, id: nat)
    requires Inv(s) && PositiveQuorum(env) && id in s.proposals && s.proposals[id].status != DepositPeriod
    ensures var s1 := AfterInactive(s, env, now);
            var m', m2 := EntriesOf(EndBlock(s, env, now).quorum, id), EntriesOf(AfterQuorum(s1, env, now).quorum, id);
            Inv(s1) && id in s1.proposals && EntriesOf(s1.quorum, id) == EntriesOf(s.quorum, id) && m' == m2
  {
    hide Inv, AfterInactive, AfterQuorum, AfterActive, OfProposal, EntriesOf, PositiveQuorum;
    NotDueInactive(s, env, now, id);
    var s1 := AfterInactive(s, env, now);
    AfterInactiveInv(s, env, now);
    assert ProposalOf(s1.proposals, id) == Some(s.proposals[id]);
    AfterQuorumInv(s1, env, now);
    AfterActiveInv(AfterQuorum(s1, env, now), env, now);
  }

  lemma EndBlockEnds(s: Store, env: Env, now: Time, id: nat)
    requires Inv(s) && PositiveQuorum(env) && IsVoting(s, id)
    ensures VotingEnds(s, EndBlock(s, env, now), now, id, LateQuorum(AfterInactive(s, env, now), env, now, id))
  {
    hide Inv, EndBlock, AfterInactive, EntriesOf, OfProposal, LateQuorum, PositiveQuorum;
    VotingAtId(s, id);
    VotingFate(s, env, now, id);
    var s1 := AfterInactive(s, env, now);
    AfterInactiveInv(s, env, now);
    CheckedOnlyLater(s1, env, now, id);
    assert ProposalOf(s1.proposals, id) == Some(s.proposals[id]);
  }

  lemma EndBlockUses(s: Store, env: Env, now: Time, id: nat)
    requires Inv(s) && PositiveQuorum(env) && id in s.proposals && s.proposals[id].status != DepositPeriod
    ensures EntriesUsed(EntriesOf(s.quorum, id), EntriesOf(EndBlock(s, env, now).quorum, id), CheckDue(s, now, id),
                        LateQuorum(AfterInactive(s, env, now), env, now, id))
  {
    EndBlockEntries(s, env, now, id);
    var s1 := AfterInactive(s, env, now);
    hide Inv, EndBlock, AfterInactive, AfterQuorum, EntriesOf, OfProposal, ChecksLeft, LateQuorum, CheckDue, PositiveQuorum;
    EntriesAfterChecks(s1, env, now, id);
    CheckDueLocal(s, s1, now, id);
  }
}
