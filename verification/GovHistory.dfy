/**
 The history of one proposal over a run, whatever transactions the run holds.  Its end, its
 number of extensions and its endorsement only ever go forward; every move of them is
 accounted for by an accepted message or by a late quorum.
 */
module GovHistory {
  import opened Options
  import opened GovTypes
  import opened CoinSums
  import opened GovStore
  import opened GovEndBlock
  import opened GovInvariants
  import opened GovBlock
  import opened GovScan
  import opened GovFate
  import opened GovChecks
  import opened GovTx
  import opened CoreDaos
  import opened GovSteps
  import opened GovRuns

  /** The proposal is voting, or was. */
  predicate Started(s: Store, id: nat) {
    id in s.proposals && s.proposals[id].status != DepositPeriod
  }

  /** From s to s', the proposal has not moved back: not its status, its end, its extensions or its endorsement. */
  ghost predicate Forward(s: Store, s': Store, id: nat) {
    && Started(s, id) && Started(s', id)
    && var p, p' := s.proposals[id], s'.proposals[id];
    && (!IsVoting(s, id) ==> p' == p)
    && (p.votingEnd.Some? ==> p'.votingEnd.Some? && p.votingEnd.value <= p'.votingEnd.value)
    && p.timesExtended <= p'.timesExtended
    && (p.endorsed ==> p'.endorsed)
  }

  lemma ForwardCompose(s: Store, s1: Store, s2: Store, id: nat)
    requires Forward(s, s1, id) && Forward(s1, s2, id)
    ensures Forward(s, s2, id)
  {
  }

  lemma ForwardRefl(s: Store, id: nat)
    requires Started(s, id)
    ensures Forward(s, s, id)
  {
  }

  // ---------------------------------------------------------------- endorsements

  predicate IsEndorsed(s: Store, id: nat) {
    id in s.proposals && s.proposals[id].endorsed
  }

  lemma EndorsedByDeposit(s: Store, env: Env, now: Time, id: nat, who: Address, amount: Coins, skip: bool)
    ensures var r := Deposit(s, env, now, id, who, amount, skip);
            r.Done? ==> IsEndorsed(r.store, id) == IsEndorsed(s, id)
  {
    hide MeetsDeposit, RatioChecked, MeetsRatio, Pay, AddAt;
  }

  lemma EndorsedByVeto(s: Store, env: Env, now: Time, id: nat, burn: bool)
    requires id in s.proposals
    ensures IsEndorsed(VetoStore(s, env, now, id, burn), id) == IsEndorsed(s, id)
  {
    SettleKeeps(s, id, burn);
    hide GovStore.SettleDeposits;
  }

  lemma EndorsedUntargeted(s: Store, env: Env, now: Time, tx: Tx, id: nat)
    requires !Targets(s, tx, id)
    ensures IsEndorsed(Apply(s, env, now, tx), id) == IsEndorsed(s, id)
  {
    ApplyFrame(s, env, now, tx, id);
    hide Apply, EntriesOf, OfProposal;
    assert ProposalOf(s.proposals, id) == ProposalOf(Apply(s, env, now, tx).proposals, id);
  }

  lemma EndorsedBySubmission(s: Store, env: Env, now: Time, messages: seq<Option<Message>>, minInitial: Coins,
                             proposer: Address, amount: Coins)
    requires Inv(s)
    ensures var r := SubmitAndDeposit(s, env, now, messages, minInitial, proposer, amount);
            !IsEndorsed(s, s.nextId) && (r.Done? ==> !IsEndorsed(r.store, s.nextId))
  {
    FreshProposal(s);
    hide Inv, Deposit;
    EndorsedByDeposit(Submit(s, now, messages), env, now, s.nextId, proposer, amount, true);
  }

  lemma EndorsedByDao(s: Store, env: Env, now: Time, tx: Tx, id: nat)
    requires tx.Voting? || tx.Annotating? || tx.Endorsing? || tx.Extending?
    requires Targets(s, tx, id)
    ensures IsEndorsed(Apply(s, env, now, tx), id) == (IsEndorsed(s, id) || Endorses(s, tx, id))
  {
  }

  /** A proposal becomes endorsed by an accepted endorsement, by nothing else, and stays so. */
  lemma ApplyEndorsed(s: Store, env: Env, now: Time, tx: Tx, id: nat)
    requires Inv(s)
    ensures IsEndorsed(Apply(s, env, now, tx), id) == (IsEndorsed(s, id) || Endorses(s, tx, id))
    ensures Endorses(s, tx, id) ==> !IsEndorsed(s, id)
  {
    hide Inv, SubmitAndDeposit, Deposit, VetoStore, Annotate, Extend, CastVote;
    if !Targets(s, tx, id) {
      EndorsedUntargeted(s, env, now, tx, id);
      hide Apply, IsEndorsed;
    } else {
      match tx
      case Submission(messages, minInitial, proposer, amount) =>
        EndorsedBySubmission(s, env, now, messages, minInitial, proposer, amount);
        hide IsEndorsed;
      case Depositing(_, who, amount) =>
        EndorsedByDeposit(s, env, now, id, who, amount, false);
        hide IsEndorsed;
      case Vetoing(_, _, burn) =>
        if id in s.proposals { EndorsedByVeto(s, env, now, id, burn); }
        hide IsEndorsed;
      case _ =>
        EndorsedByDao(s, env, now, tx, id);
        hide Apply;
    }
  }

  lemma ApplyStarted(s: Store, env: Env, now: Time, tx: Tx, id: nat)
    requires Inv(s) && DaoParamsOk(s.dao) && Started(s, id)
    ensures Forward(s, Apply(s, env, now, tx), id)
    ensures EntriesOf(Apply(s, env, now, tx).quorum, id) == EntriesOf(s.quorum, id)
  {
    ApplyEndorsed(s, env, now, tx, id);
    if IsVoting(s, id) {
      ApplyVoting(s, env, now, tx, id);
    } else {
      ApplyClosed(s, env, now, tx, id);
    }
    hide Inv, Apply, EntriesOf, Grants, Endorses;
  }

  /** No EndBlock touches an endorsement, and the proposals it may drop have none. */
  lemma EndBlockEndorsed(s: Store, env: Env, now: Time, id: nat)
    requires Inv(s) && PositiveQuorum(env) && (IsEndorsed(s, id) ==> Started(s, id))
    ensures IsEndorsed(EndBlock(s, env, now), id) == IsEndorsed(s, id)
    ensures IsEndorsed(s, id) ==> Started(EndBlock(s, env, now), id)
  {
    hide Inv, EndBlock, EntriesOf, OfProposal, LateQuorum, AfterInactive, MeetsAtTurn, PositiveQuorum;
    var s' := EndBlock(s, env, now);
    if IsVoting(s, id) {
      EndBlockEnds(s, env, now, id);
    } else if Started(s, id) {
      ClosedFate(s, env, now, id);
    } else if id in s.proposals && s.proposals[id].depositEnd <= now {
      DepositFate(s, env, now, id);
      assert ProposalOf(s'.proposals, id).Some? ==> !s'.proposals[id].endorsed;
    } else {
      IdleFate(s, env, now, id);
      assert ProposalOf(s'.proposals, id) == ProposalOf(s.proposals, id);
    }
  }

  /** How many endorsements of a proposal a run accepts. */
  ghost function EndorsedBy(s: Store, env: Env, now: Time, txs: seq<Tx>, id: nat): nat
    decreases |txs|
  {
    if txs == [] then 0
    else One(Endorses(s, txs[0], id)) + EndorsedBy(Apply(s, env, now, txs[0]), env, now, txs[1..], id)
  }

  ghost function EndorsedIn(s: Store, env: Env, bs: seq<Block>, id: nat): nat
    decreases |bs|
  {
    if bs == [] then 0
    else EndorsedBy(s, env, bs[0].time, bs[0].txs, id) + EndorsedIn(Step(s, env, bs[0]), env, bs[1..], id)
  }

  lemma {:induction false} ApplyAllEndorsed(s: Store, env: Env, now: Time, txs: seq<Tx>, id: nat)
    requires Inv(s) && DaoParamsOk(s.dao) && (IsEndorsed(s, id) ==> Started(s, id))
    ensures var s' := ApplyAll(s, env, now, txs);
            && EndorsedBy(s, env, now, txs, id) + One(IsEndorsed(s, id)) == One(IsEndorsed(s', id))
            && (IsEndorsed(s', id) ==> Started(s', id))
    decreases |txs|
  {
    hide Inv, Apply, DaoParamsOk, IsEndorsed, Endorses, Started;
    if txs != [] {
      ApplyInv(s, env, now, txs[0]);
      ApplyDao(s, env, now, txs[0]);
      ApplyEndorsed(s, env, now, txs[0], id);
      EndorsedIsStarted(s, env, now, txs[0], id);
      ApplyAllEndorsed(Apply(s, env, now, txs[0]), env, now, txs[1..], id);
    }
  }

  lemma EndorsedIsStarted(s: Store, env: Env, now: Time, tx: Tx, id: nat)
    requires Inv(s) && DaoParamsOk(s.dao) && (IsEndorsed(s, id) ==> Started(s, id))
    ensures IsEndorsed(Apply(s, env, now, tx), id) ==> Started(Apply(s, env, now, tx), id)
  {
    ApplyEndorsed(s, env, now, tx, id);
    hide Inv, Apply, DaoParamsOk, EntriesOf;
    if Started(s, id) { ApplyStarted(s, env, now, tx, id); }
  }

  /**
   Endorsement over a run: the proposal is endorsed in the end exactly if it was at the start
   or one endorsement was accepted, and never are two accepted, or one of an endorsed proposal.
   */
  lemma {:induction false} EndorsedOnce(s: Store, env: Env, bs: seq<Block>, last: Time, id: nat)
    requires Good(s, last) && PositiveQuorum(env) && Timely(last, bs) && (IsEndorsed(s, id) ==> Started(s, id))
    ensures EndorsedIn(s, env, bs, id) + One(IsEndorsed(s, id)) == One(IsEndorsed(Run(s, env, bs), id))
    ensures IsEndorsed(Run(s, env, bs), id) ==> Started(Run(s, env, bs), id)
    decreases |bs|
  {
    hide Inv, PositiveQuorum, ApplyAll, EndBlock, IsEndorsed, Started, DaoParamsOk;
    if bs != [] {
      var b, s1 := bs[0], ApplyAll(s, env, bs[0].time, bs[0].txs);
      ApplyAllInv(s, env, b.time, b.txs, last);
      ApplyAllEndorsed(s, env, b.time, b.txs, id);
      EndBlockEndorsed(s1, env, b.time, id);
      StepGood(s, env, b, last);
      EndorsedOnce(Step(s, env, b), env, bs[1..], b.time, id);
    }
  }

  /** Once a proposal is endorsed, every later endorsement is refused, in any block after any run, whoever sends it. */
  lemma NeverEndorsedAgain(s: Store, env: Env, bs: seq<Block>, last: Time, now: Time, txs: seq<Tx>, id: nat, endorser: Address)
    requires Good(s, last) && PositiveQuorum(env) && Timely(last, bs) && LastTime(last, bs) < now
    requires Started(s, id) && IsEndorsed(s, id)
    ensures var r := ApplyAll(Run(s, env, bs), env, now, txs);
            && IsEndorsed(r, id) && Endorse(r, endorser, id).Refused?
            && (IsVoting(r, id) && r.dao.steering != "" && endorser == r.dao.steering ==>
                  Endorse(r, endorser, id) == Refused(AlreadyEndorsed))
  {
    var r0 := Run(s, env, bs);
    RunGood(s, env, bs, last);
    EndorsedOnce(s, env, bs, last, id);
    hide Inv, ApplyAll, Run;
    ApplyAllEndorsed(r0, env, now, txs, id);
  }

  // ---------------------------------------------------------------- never back

  lemma EndBlockStarted(s: Store, env: Env, now: Time, id: nat)
    requires Inv(s) && PositiveQuorum(env) && Started(s, id)
    ensures Forward(s, EndBlock(s, env, now), id)
  {
    hide Inv, EndBlock, EntriesOf, OfProposal, LateQuorum, AfterInactive, PositiveQuorum;
    if IsVoting(s, id) { EndBlockEnds(s, env, now, id); } else { ClosedFate(s, env, now, id); }
  }

  lemma {:induction false} ApplyAllStarted(s: Store, env: Env, now: Time, txs: seq<Tx>, id: nat)
    requires Inv(s) && DaoParamsOk(s.dao) && Started(s, id)
    ensures Forward(s, ApplyAll(s, env, now, txs), id)
    ensures EntriesOf(ApplyAll(s, env, now, txs).quorum, id) == EntriesOf(s.quorum, id)
    decreases |txs|
  {
    hide Inv, Apply, DaoParamsOk, EntriesOf;
    if txs == [] {
      ForwardRefl(s, id);
    } else {
      var s1 := Apply(s, env, now, txs[0]);
      ApplyInv(s, env, now, txs[0]);
      ApplyDao(s, env, now, txs[0]);
      ApplyStarted(s, env, now, txs[0], id);
      ApplyAllStarted(s1, env, now, txs[1..], id);
      hide ApplyAll;
      ForwardCompose(s, s1, ApplyAll(s1, env, now, txs[1..]), id);
    }
  }

  lemma StepStarted(s: Store, env: Env, b: Block, last: Time, id: nat)
    requires Good(s, last) && PositiveQuorum(env) && last < b.time && Started(s, id)
    ensures Forward(s, Step(s, env, b), id)
  {
    hide Inv, ApplyAll, EndBlock, DaoParamsOk, EntriesOf, Forward, PositiveQuorum;
    var s1 := ApplyAll(s, env, b.time, b.txs);
    ApplyAllInv(s, env, b.time, b.txs, last);
    ApplyAllStarted(s, env, b.time, b.txs, id);
    ForwardStarted(s, s1, id);
    EndBlockStarted(s1, env, b.time, id);
    ForwardCompose(s, s1, Step(s, env, b), id);
  }

  lemma ForwardStarted(s: Store, s': Store, id: nat)
    requires Forward(s, s', id)
    ensures Started(s', id)
  {
  }

  lemma {:induction false} RunStarted(s: Store, env: Env, bs: seq<Block>, last: Time, id: nat)
    requires Good(s, last) && PositiveQuorum(env) && Timely(last, bs) && Started(s, id)
    ensures Forward(s, Run(s, env, bs), id)
    decreases |bs|
  {
    hide Good, PositiveQuorum, Step, Forward, Started;
    if bs == [] {
      ForwardRefl(s, id);
    } else {
      var s1 := Step(s, env, bs[0]);
      StepGood(s, env, bs[0], last);
      StepStarted(s, env, bs[0], last, id);
      ForwardStarted(s, s1, id);
      RunStarted(s1, env, bs[1..], bs[0].time, id);
      ForwardCompose(s, s1, Run(s1, env, bs[1..]), id);
    }
  }

  /**
   The end of a voting proposal never moves back, its extensions are never forgotten, and it
   never returns to its deposit period, whatever the transactions and checks of the run.
   */
  lemma EndNeverMovesBack(s: Store, env: Env, bs: seq<Block>, last: Time, id: nat)
    requires Good(s, last) && PositiveQuorum(env) && Timely(last, bs) && IsVoting(s, id)
    ensures var r := Run(s, env, bs);
            && id in r.proposals && (IsVoting(r, id) || !Open(r.proposals[id]))
            && s.proposals[id].votingEnd.Some? && r.proposals[id].votingEnd.Some?
            && s.proposals[id].votingEnd.value <= r.proposals[id].votingEnd.value
            && s.proposals[id].timesExtended <= r.proposals[id].timesExtended
  {
    VotingAtId(s, id);
    hide Good, PositiveQuorum, Run;
    RunStarted(s, env, bs, last, id);
  }

  // ---------------------------------------------------------------- extensions

  /** By how much a transaction moves the proposal's end: by the duration in force, if it is a granted extension. */
  function Gain(s: Store, tx: Tx, id: nat): Duration {
    if Grants(s, tx, id) then s.dao.duration else 0
  }

  /** The extensions granted to the proposal in a list of transactions, and the time they add up to. */
  ghost function GrantedBy(s: Store, env: Env, now: Time, txs: seq<Tx>, id: nat): (nat, Duration)
    decreases |txs|
  {
    if txs == [] then (0, 0)
    else
      var (n, d) := GrantedBy(Apply(s, env, now, txs[0]), env, now, txs[1..], id);
      (One(Grants(s, txs[0], id)) + n, Gain(s, txs[0], id) + d)
  }

  ghost function GrantedIn(s: Store, env: Env, bs: seq<Block>, id: nat): (nat, Duration)
    decreases |bs|
  {
    if bs == [] then (0, 0)
    else
      var (n, d) := GrantedBy(s, env, bs[0].time, bs[0].txs, id);
      var (n', d') := GrantedIn(Step(s, env, bs[0]), env, bs[1..], id);
      (n + n', d + d')
  }

  /** The proposal was extended n times, by d in all, and its end has not moved otherwise. */
  ghost predicate ExtendedBy(s: Store, s': Store, id: nat, n: nat, d: Duration) {
    && Started(s, id) && Started(s', id)
    && var p, p' := s.proposals[id], s'.proposals[id];
    && p.votingEnd.Some? && p'.votingEnd.Some?
    && p'.votingEnd.value == p.votingEnd.value + d && p'.timesExtended == p.timesExtended + n
  }

  lemma ApplyGain(s: Store, env: Env, now: Time, tx: Tx, id: nat)
    requires Inv(s) && DaoParamsOk(s.dao) && Started(s, id) && s.proposals[id].votingEnd.Some?
    ensures ExtendedBy(s, Apply(s, env, now, tx), id, One(Grants(s, tx, id)), Gain(s, tx, id))
  {
    if IsVoting(s, id) { ApplyVoting(s, env, now, tx, id); } else { ApplyClosed(s, env, now, tx, id); }
    hide Inv, Apply, EntriesOf;
  }

  lemma ExtendedCompose(s: Store, s1: Store, s2: Store, id: nat, n: nat, d: Duration, n': nat, d': Duration)
    requires ExtendedBy(s, s1, id, n, d) && ExtendedBy(s1, s2, id, n', d')
    ensures ExtendedBy(s, s2, id, n + n', d + d')
  {
  }

  lemma ExtendedHas(s: Store, s': Store, id: nat, n: nat, d: Duration)
    requires ExtendedBy(s, s', id, n, d)
    ensures Started(s', id) && s'.proposals[id].votingEnd.Some?
  {
  }

  lemma {:induction false} ApplyAllGain(s: Store, env: Env, now: Time, txs: seq<Tx>, id: nat)
    requires Inv(s) && DaoParamsOk(s.dao) && Started(s, id) && s.proposals[id].votingEnd.Some?
    ensures var (n, d) := GrantedBy(s, env, now, txs, id); ExtendedBy(s, ApplyAll(s, env, now, txs), id, n, d)
    decreases |txs|
  {
    hide Inv, Apply, DaoParamsOk, Grants, Gain;
    if txs != [] {
      var s1 := Apply(s, env, now, txs[0]);
      var (n, d) := GrantedBy(s1, env, now, txs[1..], id);
      ApplyInv(s, env, now, txs[0]);
      ApplyDao(s, env, now, txs[0]);
      ApplyGain(s, env, now, txs[0], id);
      ExtendedHas(s, s1, id, One(Grants(s, txs[0], id)), Gain(s, txs[0], id));
      ApplyAllGain(s1, env, now, txs[1..], id);
      hide ExtendedBy;
      ExtendedCompose(s, s1, ApplyAll(s1, env, now, txs[1..]), id, One(Grants(s, txs[0], id)), Gain(s, txs[0], id), n, d);
    }
  }

  /** One block's effect on a voting proposal: n extensions by d in all, and then perhaps a late quorum. */
  ghost predicate BlockMoves(s: Store, s': Store, now: Time, extension: Duration, id: nat, n: nat, d: Duration, late: bool) {
    && Started(s, id) && Started(s', id)
    && var p, p' := s.proposals[id], s'.proposals[id];
    && p.votingEnd.Some? && p'.votingEnd.Some? && p'.timesExtended == p.timesExtended + n
    && p'.votingEnd.value == (if late then now + extension else p.votingEnd.value + d)
    && (late ==> p'.votingEnd.value > p.votingEnd.value + d)
  }

  lemma BlockMovesFrom(s: Store, s1: Store, s': Store, now: Time, id: nat, n: nat, d: Duration, late: bool)
    requires ExtendedBy(s, s1, id, n, d) && Started(s', id)
    requires VotingEnds(s1, s', now, id, late) || (!late && ProposalOf(s'.proposals, id) == Some(s1.proposals[id]))
    ensures BlockMoves(s, s', now, s1.params.extension, id, n, d, late)
  {
  }

  /**
   One block moves a voting proposal's end by exactly the extensions it grants, each by the
   duration then in force, or to now plus the extension by a late quorum, which is later still,
   needs a due check and leaves no entry.
   */
  lemma BlockVoting(s: Store, env: Env, b: Block, last: Time, id: nat) returns (late: bool)
    requires Good(s, last) && PositiveQuorum(env) && last < b.time && IsVoting(s, id)
    ensures var s1, s' := ApplyAll(s, env, b.time, b.txs), Step(s, env, b);
            var (n, d) := GrantedBy(s, env, b.time, b.txs, id);
            && s'.dao == s1.dao && s'.params == s1.params
            && BlockMoves(s, s', b.time, s1.params.extension, id, n, d, late)
            && EntriesUsed(EntriesOf(s.quorum, id), EntriesOf(s'.quorum, id), CheckDue(s, b.time, id), late)
  {
    VotingAtId(s, id);
    hide Inv, ApplyAll, EndBlock, DaoParamsOk, EntriesOf, BlockMoves, VotingEnds, EntriesUsed, CheckDue, LateQuorum, AfterInactive;
    hide ExtendedBy, Forward, OfProposal;
    var s1, s' := ApplyAll(s, env, b.time, b.txs), Step(s, env, b);
    var (n, d) := GrantedBy(s, env, b.time, b.txs, id);
    ApplyAllInv(s, env, b.time, b.txs, last);
    ApplyAllStarted(s, env, b.time, b.txs, id);
    ApplyAllGain(s, env, b.time, b.txs, id);
    ExtendedHas(s, s1, id, n, d);
    EndBlockInv(s1, env, b.time);
    EndBlockDao(s1, env, b.time);
    EndBlockStarted(s1, env, b.time, id);
    ForwardStarted(s1, s', id);
    CheckDueLocal(s, s1, b.time, id);
    EndBlockUses(s1, env, b.time, id);
    if IsVoting(s1, id) {
      late := LateQuorum(AfterInactive(s1, env, b.time), env, b.time, id);
      EndBlockEnds(s1, env, b.time, id);
    } else {
      late := false;
      ClosedFate(s1, env, b.time, id);
      NotLateUses(EntriesOf(s1.quorum, id), EntriesOf(s'.quorum, id), CheckDue(s1, b.time, id),
                  LateQuorum(AfterInactive(s1, env, b.time), env, b.time, id));
    }
    BlockMovesFrom(s, s1, s', b.time, id, n, d, late);
  }

  lemma NotLateUses(m: map<QKey, QuorumEntry>, m': map<QKey, QuorumEntry>, due: bool, late: bool)
    requires EntriesUsed(m, m', due, late)
    ensures EntriesUsed(m, m', due, false)
  {
    hide ChecksLeft;
  }

  lemma NoEntryNotLate(m: map<QKey, QuorumEntry>, m': map<QKey, QuorumEntry>, due: bool, late: bool)
    requires EntriesUsed(m, m', due, late) && m == map[]
    ensures !late && !due && m' == map[]
  {
    NoChecksLeft(m);
    hide ChecksLeft;
  }

  lemma NoChecksLeft(m: map<QKey, QuorumEntry>)
    ensures m == map[] ==> ChecksLeft(m) == 0
  {
  }

  /** Without a quorum-check entry EndBlock leaves the end alone, and no entry comes. */
  lemma EndBlockWithoutEntry(s: Store, env: Env, now: Time, id: nat)
    requires Inv(s) && PositiveQuorum(env) && Started(s, id) && s.proposals[id].votingEnd.Some?
    requires EntriesOf(s.quorum, id) == map[]
    ensures ExtendedBy(s, EndBlock(s, env, now), id, 0, 0) && EntriesOf(EndBlock(s, env, now).quorum, id) == map[]
  {
    hide Inv, EndBlock, EntriesOf, OfProposal, LateQuorum, AfterInactive, EntriesUsed, CheckDue, PositiveQuorum;
    EndBlockUses(s, env, now, id);
    var late := LateQuorum(AfterInactive(s, env, now), env, now, id);
    NoEntryNotLate(EntriesOf(s.quorum, id), EntriesOf(EndBlock(s, env, now).quorum, id), CheckDue(s, now, id), late);
    if IsVoting(s, id) { EndBlockEnds(s, env, now, id); } else { ClosedFate(s, env, now, id); }
  }

  /**
   A late quorum removes the proposal's entry (BlockVoting), and a started proposal without an
   entry never gets one: from then on the granted extensions alone move its end, each by the
   duration in force when it is granted.
   */
  lemma {:induction false} OnlyDaosAfterLateQuorum(s: Store, env: Env, bs: seq<Block>, last: Time, id: nat)
    requires Good(s, last) && PositiveQuorum(env) && Timely(last, bs)
    requires Started(s, id) && s.proposals[id].votingEnd.Some? && EntriesOf(s.quorum, id) == map[]
    ensures var (n, d) := GrantedIn(s, env, bs, id);
            var r := Run(s, env, bs);
            ExtendedBy(s, r, id, n, d) && EntriesOf(r.quorum, id) == map[]
    decreases |bs|
  {
    hide Inv, PositiveQuorum, ApplyAll, EndBlock, EntriesOf, DaoParamsOk;
    if bs != [] {
      var b, s1 := bs[0], ApplyAll(s, env, bs[0].time, bs[0].txs);
      var (n, d) := GrantedBy(s, env, b.time, b.txs, id);
      var (n', d') := GrantedIn(Step(s, env, b), env, bs[1..], id);
      ApplyAllInv(s, env, b.time, b.txs, last);
      ApplyAllStarted(s, env, b.time, b.txs, id);
      ApplyAllGain(s, env, b.time, b.txs, id);
      ExtendedHas(s, s1, id, n, d);
      EndBlockWithoutEntry(s1, env, b.time, id);
      ExtendedHas(s1, Step(s, env, b), id, 0, 0);
      StepGood(s, env, b, last);
      OnlyDaosAfterLateQuorum(Step(s, env, b), env, bs[1..], b.time, id);
      hide ExtendedBy, Run, Forward, Clear;
      ExtendedCompose(s, s1, Step(s, env, b), id, n, d, 0, 0);
      ExtendedCompose(s, Step(s, env, b), Run(s, env, bs), id, n, d, n', d');
    }
  }
}
