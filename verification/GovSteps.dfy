/**
 Transactions, and what each of them does to a given proposal.  A transaction aimed at one
 proposal leaves the others alone; a voting proposal can only be vetoed, or have its end
 moved by a DAO within the limit; a closed one never changes.
 */
module GovSteps {
  import opened Options
  import opened GovTypes
  import opened CoinSums
  import opened GovStore
  import opened GovEndBlock
  import opened GovInvariants
  import opened GovBlock
  import opened GovMoney
  import opened GovScan
  import opened GovTx
  import opened CoreDaos

  datatype Tx =
    | Submission(messages: seq<Option<Message>>, minInitial: Coins, proposer: Address, amount: Coins)
    | Depositing(id: nat, who: Address, amount: Coins)
    | Voting(id: nat, voter: Address, vote: Vote)
    | Annotating(annotator: Address, id: nat, annotation: string, overwrite: bool)
    | Endorsing(endorser: Address, id: nat)
    | Extending(extender: Address, id: nat)
    | Vetoing(vetoer: Address, id: nat, burn: bool)
    | Outside(world: World)
    | NewGovParams(params: GovParams)
    | NewDaoParams(dao: DaoParams)

  /** A transaction of another module: it does not spend from the gov account, and the bank keeps its books. */
  ghost predicate Allowed(w: World, w': World) {
    w.gov <= w'.gov && (SupplyIsTotal(w) ==> SupplyIsTotal(w'))
  }

  ghost function ReplyTo(s: Store, env: Env, now: Time, tx: Tx): Reply {
    match tx
    case Submission(messages, minInitial, proposer, amount) =>
      SubmitAndDeposit(s, env, now, messages, minInitial, proposer, amount)
    case Depositing(id, who, amount) => Deposit(s, env, now, id, who, amount, false)
    case Voting(id, voter, vote) => CastVote(s, id, voter, vote)
    case Annotating(annotator, id, annotation, overwrite) => Annotate(s, annotator, id, annotation, overwrite)
    case Endorsing(endorser, id) => Endorse(s, endorser, id)
    case Extending(extender, id) => Extend(s, extender, id)
    case Vetoing(vetoer, id, burn) => Veto(s, env, now, vetoer, id, burn)
    case Outside(w) => Done(if Allowed(s.world, w) then s.(world := w) else s)
    case NewGovParams(g) =>
      Done(if ParamsOk(g) then s.(params := g, minDeposit := MinDeposit(RequiredDeposit(s), now)) else s)
    case NewDaoParams(d) => Done(if DaoParamsOk(d) then s.(dao := d) else s)
  }

  /** A refused transaction changes nothing; a panic inside one is recovered, and its changes are dropped. */
  ghost function Apply(s: Store, env: Env, now: Time, tx: Tx): Store {
    match ReplyTo(s, env, now, tx)
    case Done(s') => if s'.halted && !s.halted then s else s'
    case Refused(_) => s
  }

  /** A refused transaction and one that panics leave the store as it was, so no transaction halts the chain. */
  lemma NoTransactionHalts(s: Store, env: Env, now: Time, tx: Tx)
    requires !s.halted
    ensures !Apply(s, env, now, tx).halted
    ensures var r := ReplyTo(s, env, now, tx); r.Refused? || r.store.halted ==> Apply(s, env, now, tx) == s
    ensures var r := ReplyTo(s, env, now, tx); r.Done? && !r.store.halted ==> Apply(s, env, now, tx) == r.store
  {
    hide ReplyTo;
  }

  // ---------------------------------------------------------------- the minimum deposit in force

  /** Valid new parameters first fix the minimum deposit that was in force under the old ones. */
  lemma NewParamsWhole(s: Store, env: Env, now: Time, g: GovParams)
    requires ParamsOk(g)
    ensures Apply(s, env, now, NewGovParams(g)) ==
            s.(params := g,
               minDeposit := MinDeposit(if s.minDeposit.value == multiset{} then s.params.depositFloor else s.minDeposit.value, now))
  {
  }

  /**
   The next deposit after a block reads what the block's throttle returned: it starts the vote
   if and only if the total reaches that value, or the floor while it is empty.
   */
  lemma DepositAfterBlock(s: Store, env: Env, now: Time, later: Time, id: nat, who: Address, amount: Coins)
    requires Inv(s) && PositiveQuorum(env)
    requires var s' := EndBlock(s, env, now); IsDeposit(s', id) && Deposit(s', env, later, id, who, amount, false).Done?
    ensures var s' := EndBlock(s, env, now);
            var m := env.throttle(s.params, AfterInactive(s, env, now).minDeposit, |s'.active|, true, now);
            var least, total := if m.value == multiset{} then s.params.depositFloor else m.value, s'.proposals[id].totalDeposit + amount;
            var r := Deposit(s', env, later, id, who, amount, false).store;
            id in r.proposals && (r.proposals[id].status == VotingPeriod <==> least <= total)
  {
    MinimumAfterBlock(s, env, now);
    EndBlockInv(s, env, now);
    hide Inv, EndBlock, AfterInactive, Deposit;
    DepositWhole(EndBlock(s, env, now), env, later, id, who, amount, false);
  }

  predicate IsDeposit(s: Store, id: nat) {
    id in s.proposals && s.proposals[id].status == DepositPeriod
  }

  // ---------------------------------------------------------------- invariants

  lemma SubmitAndDepositInv(s: Store, env: Env, now: Time, messages: seq<Option<Message>>, minInitial: Coins,
                            proposer: Address, amount: Coins)
    requires Inv(s)
    ensures var r := SubmitAndDeposit(s, env, now, messages, minInitial, proposer, amount); r.Done? ==> Inv(r.store)
  {
    hide Inv, Submit, Deposit;
    SubmitInv(s, now, messages);
    DepositInv(Submit(s, now, messages), env, now, s.nextId, proposer, amount, true);
  }

  lemma WorldInv(s: Store, w: World)
    requires Inv(s)
    ensures Inv(s.(world := w))
  {
    hide IndexesActive, IndexesInactive, AllTimes, Sum;
  }

  lemma ParamsInv(s: Store, g: GovParams, m: MinDeposit, d: DaoParams)
    requires Inv(s) && ParamsOk(g)
    ensures Inv(s.(params := g, minDeposit := m)) && Inv(s.(dao := d))
  {
    hide IndexesActive, IndexesInactive, AllTimes, Sum;
  }

  lemma ApplyInv(s: Store, env: Env, now: Time, tx: Tx)
    requires Inv(s) && DaoParamsOk(s.dao)
    ensures Inv(Apply(s, env, now, tx))
  {
    hide Inv, SubmitAndDeposit, Deposit, CastVote, Annotate, Endorse, Extend, VetoStore, RequiredDeposit, SupplyIsTotal;
    hide DaoParamsOk, ParamsOk;
    ValidParams(s);
    match tx
    case Submission(messages, minInitial, proposer, amount) =>
      SubmitAndDepositInv(s, env, now, messages, minInitial, proposer, amount);
    case Depositing(id, who, amount) => DepositInv(s, env, now, id, who, amount, false);
    case Voting(id, voter, vote) => CastVoteInv(s, id, voter, vote);
    case Annotating(annotator, id, annotation, overwrite) => AnnotateInv(s, annotator, id, annotation, overwrite);
    case Endorsing(endorser, id) => EndorseInv(s, endorser, id);
    case Extending(extender, id) => ExtendExact(s, extender, id);
    case Vetoing(vetoer, id, burn) =>
      if Veto(s, env, now, vetoer, id, burn).Done? { VetoInv(s, env, now, id, burn); }
    case Outside(w) => if Allowed(s.world, w) { WorldInv(s, w); }
    case NewGovParams(g) => if ParamsOk(g) { ParamsInv(s, g, MinDeposit(RequiredDeposit(s), now), s.dao); }
    case NewDaoParams(d) => ParamsInv(s, s.params, s.minDeposit, d);
  }

  lemma ValidParams(s: Store)
    requires Inv(s)
    ensures ParamsOk(s.params)
  {
  }

  // ---------------------------------------------------------------- frames

  predicate Targets(s: Store, tx: Tx, id: nat) {
    match tx
    case Submission(_, _, _, _) => id == s.nextId
    case Depositing(j, _, _) => id == j
    case Voting(j, _, _) => id == j
    case Annotating(_, j, _, _) => id == j
    case Endorsing(_, j) => id == j
    case Extending(_, j) => id == j
    case Vetoing(_, j, _) => id == j
    case Outside(_) => false
    case NewGovParams(_) => false
    case NewDaoParams(_) => false
  }

  lemma PaidFrame(s: Store, id: nat, who: Address, amount: Coins, other: nat)
    requires id != other && id in s.proposals
    ensures LocalOf(PaidStore(s, id, who, amount), other) == LocalOf(s, other)
  {
    hide Pay;
    OtherAddAt(s.deposits, DKey(id, who), amount, other);
    hide OfProposal, AddAt;
  }

  lemma DepositFrame(s: Store, env: Env, now: Time, id: nat, who: Address, amount: Coins, skip: bool, other: nat)
    requires id != other
    ensures var r := Deposit(s, env, now, id, who, amount, skip); r.Done? ==> LocalOf(r.store, other) == LocalOf(s, other)
  {
    if id in s.proposals {
      DepositedOrder(s, env, now, id, who, amount);
      PaidFrame(s, id, who, amount, other);
      ActivateFrame(PaidStore(s, id, who, amount), env, now, id, other);
    }
    hide Deposited, PaidStore, Activate, LocalOf, MeetsDeposit, RatioChecked, MeetsRatio;
  }

  lemma SubmitFrame(s: Store, now: Time, messages: seq<Option<Message>>, other: nat)
    requires other != s.nextId
    ensures LocalOf(Submit(s, now, messages), other) == LocalOf(s, other)
  {
  }

  lemma DaoFrame(s: Store, id: nat, p: Proposal, end: Time, other: nat)
    requires id != other
    ensures LocalOf(SetProposal(s, id, p), other) == LocalOf(s, other)
    ensures p.votingEnd.Some? ==> LocalOf(MoveEnd(s, id, p, end), other) == LocalOf(s, other)
  {
  }

  lemma VetoFrame(s: Store, env: Env, now: Time, id: nat, burn: bool, other: nat)
    requires id != other && id in s.proposals
    ensures LocalOf(VetoStore(s, env, now, id, burn), other) == LocalOf(s, other)
  {
    SettleFrame(s, id, burn, other);
    SettleKeeps(s, id, burn);
    hide SettleDeposits;
    OfProposalFrame(s.votes, other, id);
    hide OfProposal, Without;
  }

  lemma ApplyFrame(s: Store, env: Env, now: Time, tx: Tx, id: nat)
    requires !Targets(s, tx, id)
    ensures LocalOf(Apply(s, env, now, tx), id) == LocalOf(s, id)
  {
    match tx
    case Submission(messages, minInitial, proposer, amount) =>
      hide Submit, Deposit, LocalOf;
      SubmitFrame(s, now, messages, id);
      DepositFrame(Submit(s, now, messages), env, now, s.nextId, proposer, amount, true, id);
    case Depositing(j, who, amount) =>
      hide Deposit, LocalOf;
      DepositFrame(s, env, now, j, who, amount, false, id);
    case Voting(j, voter, vote) => VoteFrame(s, j, voter, vote, id);
    case Annotating(annotator, j, annotation, overwrite) =>
      hide LocalOf;
      if j in s.proposals { DaoFrame(s, j, s.proposals[j].(annotation := annotation), 0, id); }
    case Endorsing(endorser, j) =>
      hide LocalOf;
      if j in s.proposals { DaoFrame(s, j, s.proposals[j].(endorsed := true), 0, id); }
    case Extending(extender, j) => ExtendFrame(s, extender, j, id);
    case Vetoing(vetoer, j, burn) =>
      hide VetoStore, LocalOf;
      if j in s.proposals { VetoFrame(s, env, now, j, burn, id); }
    case Outside(w) =>
    case NewGovParams(g) =>
    case NewDaoParams(d) =>
  }

  lemma VoteFrame(s: Store, id: nat, voter: Address, vote: Vote, other: nat)
    requires id != other
    ensures OfProposal(s.votes[DKey(id, voter) := vote], other) == OfProposal(s.votes, other)
  {
  }

  lemma ExtendFrame(s: Store, extender: Address, id: nat, other: nat)
    requires id != other
    ensures var r := Extend(s, extender, id); r.Done? ==> LocalOf(r.store, other) == LocalOf(s, other)
  {
    if id in s.proposals && s.proposals[id].votingEnd.Some? {
      var p := s.proposals[id];
      DaoFrame(s, id, p.(timesExtended := p.timesExtended + 1), p.votingEnd.value + s.dao.duration, other);
    }
    hide MoveEnd;
  }

  // ---------------------------------------------------------------- a voting proposal

  predicate IsVoting(s: Store, id: nat) {
    id in s.proposals && s.proposals[id].status == VotingPeriod
  }

  /** The transaction is an extension of the proposal, and it is granted. */
  predicate Grants(s: Store, tx: Tx, id: nat) {
    tx.Extending? && tx.id == id && Extend(s, tx.extender, id).Done?
  }

  /** The transaction is an endorsement of the proposal, and it is accepted. */
  predicate Endorses(s: Store, tx: Tx, id: nat) {
    tx.Endorsing? && tx.id == id && Endorse(s, tx.endorser, id).Done?
  }

  /** The end stays unless an extension is granted, which moves it once more within the limit. */
  predicate MovedByDao(p: Proposal, p': Proposal, dao: DaoParams, granted: bool) {
    && p.votingEnd.Some? && p'.votingEnd.Some?
    && (if granted
        then p.timesExtended < dao.limit && p'.timesExtended == p.timesExtended + 1
             && p'.votingEnd.value == p.votingEnd.value + dao.duration
        else p'.votingEnd == p.votingEnd && p'.timesExtended == p.timesExtended)
  }

  /** From a voting proposal of s, a transaction leads to this in s'. */
  ghost predicate VotingTo(s: Store, s': Store, id: nat, granted: bool) {
    && id in s.proposals && id in s'.proposals
    && (IsVoting(s', id) || s'.proposals[id].status == Vetoed)
    && MovedByDao(s.proposals[id], s'.proposals[id], s.dao, granted)
    && EntriesOf(s'.quorum, id) == EntriesOf(s.quorum, id)
  }

  lemma VotingByVeto(s: Store, env: Env, now: Time, vetoer: Address, id: nat, burn: bool)
    requires Inv(s) && IsVoting(s, id)
    ensures VotingTo(s, Apply(s, env, now, Vetoing(vetoer, id, burn)), id, false)
  {
    hide Inv, VetoStore, EntriesOf, SettleDeposits, Without, Sum;
    VotingAtId(s, id);
    VetoShape(s, env, now, id, burn);
  }

  lemma VotingByExtend(s: Store, env: Env, now: Time, extender: Address, id: nat)
    requires Inv(s) && IsVoting(s, id)
    ensures VotingTo(s, Apply(s, env, now, Extending(extender, id)), id, Extend(s, extender, id).Done?)
  {
    VotingAtId(s, id);
    ExtendExact(s, extender, id);
    hide Inv, Extend, EntriesOf;
  }

  lemma VotingByDeposit(s: Store, env: Env, now: Time, id: nat, who: Address, amount: Coins)
    requires Inv(s) && IsVoting(s, id)
    ensures VotingTo(s, Apply(s, env, now, Depositing(id, who, amount)), id, false)
  {
    hide Inv, Deposited, EntriesOf, RatioChecked, MeetsRatio;
    VotingAtId(s, id);
    VotingDeposited(s, env, now, id, who, amount);
  }

  lemma VotingByOther(s: Store, env: Env, now: Time, tx: Tx, id: nat)
    requires Inv(s) && IsVoting(s, id) && (tx.Voting? || tx.Annotating? || tx.Endorsing?) && Targets(s, tx, id)
    ensures VotingTo(s, Apply(s, env, now, tx), id, false)
  {
    hide Inv, EntriesOf;
    VotingAtId(s, id);
  }

  lemma VotingUntargeted(s: Store, env: Env, now: Time, tx: Tx, id: nat)
    requires Inv(s) && IsVoting(s, id) && !Targets(s, tx, id)
    ensures VotingTo(s, Apply(s, env, now, tx), id, false)
  {
    VotingAtId(s, id);
    ApplyFrame(s, env, now, tx, id);
    hide Apply, EntriesOf, OfProposal, Inv, Targets;
    assert ProposalOf(s.proposals, id) == ProposalOf(Apply(s, env, now, tx).proposals, id);
  }

  /** What any transaction can do to a voting proposal: veto it, or move its end within the limit. */
  lemma ApplyVoting(s: Store, env: Env, now: Time, tx: Tx, id: nat)
    requires Inv(s) && IsVoting(s, id)
    ensures VotingTo(s, Apply(s, env, now, tx), id, Grants(s, tx, id))
  {
    FreshId(s, id);
    hide Apply, Inv, VotingTo;
    if !Targets(s, tx, id) {
      VotingUntargeted(s, env, now, tx, id);
    } else {
      match tx
      case Depositing(_, who, amount) => VotingByDeposit(s, env, now, id, who, amount);
      case Vetoing(vetoer, _, burn) => VotingByVeto(s, env, now, vetoer, id, burn);
      case Extending(extender, _) => VotingByExtend(s, env, now, extender, id);
      case _ => VotingByOther(s, env, now, tx, id);
    }
  }

  lemma VotingDeposited(s: Store, env: Env, now: Time, id: nat, who: Address, amount: Coins)
    requires id in s.proposals && s.proposals[id].status != DepositPeriod
    ensures var s', p := Deposited(s, env, now, id, who, amount), s.proposals[id];
            s'.quorum == s.quorum && s'.proposals == s.proposals[id := p.(totalDeposit := p.totalDeposit + amount)]
  {
    hide AddAt, Pay;
  }

  /** No transaction changes a proposal that is neither in deposit nor in voting period. */
  lemma ApplyClosed(s: Store, env: Env, now: Time, tx: Tx, id: nat)
    requires Inv(s) && id in s.proposals && !Open(s.proposals[id])
    ensures var s' := Apply(s, env, now, tx);
            ProposalOf(s'.proposals, id) == Some(s.proposals[id]) && EntriesOf(s'.quorum, id) == EntriesOf(s.quorum, id)
  {
    if !Targets(s, tx, id) {
      ApplyFrame(s, env, now, tx, id);
      hide Apply;
    } else {
      FreshId(s, id);
      hide EntriesOf, RatioChecked, MeetsRatio, VetoStore, SubmitAndDeposit, Deposited;
    }
  }
}
