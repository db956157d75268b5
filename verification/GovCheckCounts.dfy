/**
 How often a proposal is checked for quorum, and how often a late quorum extends it, in any
 run: an entry carries its own count, so later parameters give a proposal no more checks.
 */
module GovCheckCounts {
  import opened Options
  import opened GovTypes
  import opened CoinSums
  import opened GovQueue
  import opened GovStore
  import opened GovEndBlock
  import opened GovInvariants
  import opened GovBlock
  import opened GovScan
  import opened GovFate
  import opened GovChecks
  import opened GovTx
  import opened CoreDaos
  import opened GovSteps
  import opened GovRuns
  import opened GovHistory

  /** A check of the proposal takes place in this EndBlock, whose first pass may just have started its voting period. */
  ghost predicate Checks(s: Store, env: Env, now: Time, id: nat) {
    CheckDue(AfterInactive(s, env, now), now, id)
  }

  /** A check in this EndBlock finds a late quorum. */
  ghost predicate Late(s: Store, env: Env, now: Time, id: nat) {
    LateQuorum(AfterInactive(s, env, now), env, now, id)
  }

  lemma NoCheckDue(s: Store, now: Time, id: nat)
    requires EntriesOf(s.quorum, id) == map[]
    ensures !CheckDue(s, now, id)
  {
    assert forall k | k in s.quorum && k.id == id :: k in EntriesOf(s.quorum, id);
  }

  /** All the checks an entry starts with: one at the quorum timeout, and as many again as its count. */
  function AllChecks(count: nat): nat {
    if count == 0 then 0 else count + 1
  }

  /** Checks were used up and late quorums found while the entries went from m to m'. */
  ghost predicate Used(m: map<QKey, QuorumEntry>, m': map<QKey, QuorumEntry>, checks: nat, lates: nat) {
    checks + ChecksLeft(m') <= ChecksLeft(m) && lates + One(m' != map[]) <= One(m != map[])
  }

  lemma UsedFrom(m: map<QKey, QuorumEntry>, m': map<QKey, QuorumEntry>, due: bool, late: bool)
    requires EntriesUsed(m, m', due, late)
    ensures Used(m, m', One(due), One(late))
  {
    NoChecksLeft(m);
    hide ChecksLeft;
  }

  // ---------------------------------------------------------------- a proposal that has started voting

  lemma EndBlockUsed(s: Store, env: Env, now: Time, id: nat)
    requires Inv(s) && PositiveQuorum(env) && Started(s, id)
    ensures Used(EntriesOf(s.quorum, id), EntriesOf(EndBlock(s, env, now).quorum, id),
                 One(Checks(s, env, now, id)), One(Late(s, env, now, id)))
  {
    EndBlockUses(s, env, now, id);
    EndBlockEntries(s, env, now, id);
    hide Inv, EndBlock, EntriesOf, AfterInactive, AfterQuorum, LateQuorum, EntriesUsed, CheckDue, Used;
    CheckDueLocal(s, AfterInactive(s, env, now), now, id);
    UsedFrom(EntriesOf(s.quorum, id), EntriesOf(EndBlock(s, env, now).quorum, id), CheckDue(s, now, id), Late(s, env, now, id));
  }

  /** How many quorum checks a proposal gets in a run. */
  ghost function CountChecks(s: Store, env: Env, bs: seq<Block>, id: nat): nat
    decreases |bs|
  {
    if bs == [] then 0
    else One(Checks(ApplyAll(s, env, bs[0].time, bs[0].txs), env, bs[0].time, id))
         + CountChecks(Step(s, env, bs[0]), env, bs[1..], id)
  }

  /** How many of them find a late quorum. */
  ghost function CountLate(s: Store, env: Env, bs: seq<Block>, id: nat): nat
    decreases |bs|
  {
    if bs == [] then 0
    else One(Late(ApplyAll(s, env, bs[0].time, bs[0].txs), env, bs[0].time, id))
         + CountLate(Step(s, env, bs[0]), env, bs[1..], id)
  }

  lemma StepUsed(s: Store, env: Env, b: Block, last: Time, id: nat)
    requires Good(s, last) && PositiveQuorum(env) && last < b.time && Started(s, id)
    ensures var s1 := ApplyAll(s, env, b.time, b.txs);
            && Used(EntriesOf(s.quorum, id), EntriesOf(Step(s, env, b).quorum, id),
                    One(Checks(s1, env, b.time, id)), One(Late(s1, env, b.time, id)))
            && Started(Step(s, env, b), id)
  {
    hide Inv, ApplyAll, EndBlock, DaoParamsOk, EntriesOf, PositiveQuorum, Used, Checks, Late, Started;
    var s1 := ApplyAll(s, env, b.time, b.txs);
    ApplyAllInv(s, env, b.time, b.txs, last);
    ApplyAllStarted(s, env, b.time, b.txs, id);
    EndBlockUsed(s1, env, b.time, id);
    EndBlockStarted(s1, env, b.time, id);
  }

  /**
   From its start on, the checks a proposal gets in a run and those it has left stay within
   what its entry had, and late quorums are found at most once, and only while it has an entry.
   */
  lemma {:induction false} ChecksWithinAllowance(s: Store, env: Env, bs: seq<Block>, last: Time, id: nat)
    requires Good(s, last) && PositiveQuorum(env) && Timely(last, bs) && Started(s, id)
    ensures Used(EntriesOf(s.quorum, id), EntriesOf(Run(s, env, bs).quorum, id),
                 CountChecks(s, env, bs, id), CountLate(s, env, bs, id))
    decreases |bs|
  {
    hide Good, PositiveQuorum, Step, ApplyAll, Checks, Late, EntriesOf, ChecksLeft, Started;
    if bs != [] {
      var s1 := ApplyAll(s, env, bs[0].time, bs[0].txs);
      StepGood(s, env, bs[0], last);
      StepUsed(s, env, bs[0], last, id);
      ChecksWithinAllowance(Step(s, env, bs[0]), env, bs[1..], bs[0].time, id);
    }
  }

  // ---------------------------------------------------------------- a proposal that is still to start

  /** A deposit that starts the voting gives the proposal one entry with all its checks. */
  lemma FreshChecks(s: Store, env: Env, now: Time, id: nat, who: Address, amount: Coins)
    requires id in s.proposals && EntriesOf(s.quorum, id) == map[]
    ensures ChecksLeft(EntriesOf(Deposited(s, env, now, id, who, amount).quorum, id)) <= AllChecks(s.params.checkCount)
  {
    var k, e := QKey(now + s.params.quorumTimeout, id), QuorumEntry(now + s.params.quorumTimeout, s.params.checkCount, 0);
    EntriesPlus(s.quorum, k, e);
    ChecksLeftOne(map[k := e], k);
    NoChecksLeft(EntriesOf(s.quorum, id));
    hide EntriesOf, ChecksLeft, MeetsDeposit, Pay, AddAt;
  }

  lemma DepositStarts(s: Store, env: Env, now: Time, id: nat, who: Address, amount: Coins, skip: bool)
    requires id in s.proposals && EntriesOf(s.quorum, id) == map[]
    ensures var r := Deposit(s, env, now, id, who, amount, skip);
            r.Done? ==> ChecksLeft(EntriesOf(r.store.quorum, id)) <= AllChecks(s.params.checkCount)
  {
    FreshChecks(s, env, now, id, who, amount);
    hide Deposited, RatioChecked, MeetsRatio, EntriesOf, ChecksLeft;
  }

  lemma SubmissionStarts(s: Store, env: Env, now: Time, messages: seq<Option<Message>>, minInitial: Coins,
                         proposer: Address, amount: Coins)
    requires Inv(s)
    ensures var r := SubmitAndDeposit(s, env, now, messages, minInitial, proposer, amount);
            r.Done? ==> ChecksLeft(EntriesOf(r.store.quorum, s.nextId)) <= AllChecks(s.params.checkCount)
  {
    SubmitInv(s, now, messages);
    NoEntries(Submit(s, now, messages), s.nextId);
    hide Inv, EntriesOf, Deposit, ChecksLeft;
    DepositStarts(Submit(s, now, messages), env, now, s.nextId, proposer, amount, true);
  }

  lemma StartsUntargeted(s: Store, env: Env, now: Time, tx: Tx, id: nat)
    requires !Targets(s, tx, id)
    ensures Started(Apply(s, env, now, tx), id) == Started(s, id)
  {
    ApplyFrame(s, env, now, tx, id);
    hide Apply, EntriesOf, OfProposal;
    assert ProposalOf(s.proposals, id) == ProposalOf(Apply(s, env, now, tx).proposals, id);
  }

  lemma ApplyStarts(s: Store, env: Env, now: Time, tx: Tx, id: nat)
    requires Inv(s) && !Started(s, id)
    ensures var s' := Apply(s, env, now, tx);
            Started(s', id) ==> ChecksLeft(EntriesOf(s'.quorum, id)) <= AllChecks(s.params.checkCount)
  {
    hide Inv, EntriesOf, ChecksLeft, SubmitAndDeposit, Deposit, AllChecks, VetoStore, MoveEnd;
    NoEntries(s, id);
    if !Targets(s, tx, id) {
      StartsUntargeted(s, env, now, tx, id);
      hide Apply, Started;
    } else {
      match tx
      case Submission(messages, minInitial, proposer, amount) =>
        SubmissionStarts(s, env, now, messages, minInitial, proposer, amount);
      case Depositing(_, who, amount) =>
        DepositUnknown(s, env, now, id, who, amount);
        if id in s.proposals { DepositStarts(s, env, now, id, who, amount, false); }
      case _ =>
    }
  }

  lemma DepositUnknown(s: Store, env: Env, now: Time, id: nat, who: Address, amount: Coins)
    ensures id !in s.proposals ==> Deposit(s, env, now, id, who, amount, false).Refused?
  {
  }

  /** The check count in force at the transaction that starts the proposal's voting, if one of them does. */
  ghost function StartedBy(s: Store, env: Env, now: Time, txs: seq<Tx>, id: nat): Option<nat>
    decreases |txs|
  {
    if txs == [] then None
    else
      var s' := Apply(s, env, now, txs[0]);
      if Started(s', id) then Some(s.params.checkCount) else StartedBy(s', env, now, txs[1..], id)
  }

  /** The check count in force where a run starts the proposal's voting, if it does. */
  ghost function StartedIn(s: Store, env: Env, bs: seq<Block>, id: nat): Option<nat>
    decreases |bs|
  {
    if bs == [] then None
    else
      var s1 := ApplyAll(s, env, bs[0].time, bs[0].txs);
      var n := StartedBy(s, env, bs[0].time, bs[0].txs, id);
      if n.Some? then n
      else if Started(Step(s, env, bs[0]), id) then Some(s1.params.checkCount)
      else StartedIn(Step(s, env, bs[0]), env, bs[1..], id)
  }

  lemma {:induction false} ApplyAllStarts(s: Store, env: Env, now: Time, txs: seq<Tx>, id: nat)
    requires Inv(s) && DaoParamsOk(s.dao) && !Started(s, id)
    ensures var s', n := ApplyAll(s, env, now, txs), StartedBy(s, env, now, txs, id);
            && (n.Some? <==> Started(s', id))
            && (n.Some? ==> ChecksLeft(EntriesOf(s'.quorum, id)) <= AllChecks(n.value))
    decreases |txs|
  {
    hide Inv, Apply, DaoParamsOk, EntriesOf, ChecksLeft, AllChecks, Started, Forward;
    if txs != [] {
      var s1 := Apply(s, env, now, txs[0]);
      ApplyInv(s, env, now, txs[0]);
      ApplyDao(s, env, now, txs[0]);
      ApplyStarts(s, env, now, txs[0], id);
      if Started(s1, id) {
        ApplyAllStarted(s1, env, now, txs[1..], id);
        ForwardStarted(s1, ApplyAll(s1, env, now, txs[1..]), id);
      } else {
        ApplyAllStarts(s1, env, now, txs[1..], id);
      }
    }
  }

  lemma ActivatedChecks(p: Proposal, id: nat, now: Time, g: GovParams, deposits: map<DKey, Coins>)
    ensures ChecksLeft(Activated(p, id, now, g, deposits).entries) <= AllChecks(g.checkCount)
  {
    var m := Activated(p, id, now, g, deposits).entries;
    if g.checkCount > 0 { ChecksLeftOne(m, QKey(now + g.quorumTimeout, id)); } else { NoChecksLeft(m); }
  }

  /** A proposal that EndBlock starts gets all its checks, and finds no late quorum in the same block. */
  lemma ActivationChecks(s: Store, env: Env, now: Time, id: nat)
    requires Inv(s) && PositiveQuorum(env) && id in s.proposals && s.proposals[id].status == DepositPeriod
    requires s.proposals[id].depositEnd <= now && MeetsAtTurn(s, env, now, id)
    ensures var left := ChecksLeft(EntriesOf(EndBlock(s, env, now).quorum, id));
            One(Checks(s, env, now, id)) + left <= AllChecks(s.params.checkCount)
    ensures !Late(s, env, now, id)
  {
    DepositAfterInactive(s, env, now, id);
    ActivatedChecks(s.proposals[id], id, now, s.params, OfProposal(s.deposits, id));
    AfterInactiveInv(s, env, now);
    var s1 := AfterInactive(s, env, now);
    FreshlyActivated(s1, env, now, id, s.proposals[id], s.params, OfProposal(s.deposits, id));
    hide Inv, AfterInactive, AfterQuorum, AfterActive, EntriesOf, OfProposal, ChecksLeft, CheckDue, LateQuorum, MeetsAtTurn;
    EntriesAfterChecks(s1, env, now, id);
    AfterQuorumInv(s1, env, now);
    AfterActiveInv(AfterQuorum(s1, env, now), env, now);
  }

  lemma NoEntryNoCheck(s: Store, env: Env, now: Time, id: nat)
    requires EntriesOf(AfterInactive(s, env, now).quorum, id) == map[]
    ensures !Checks(s, env, now, id) && !Late(s, env, now, id)
  {
    hide AfterInactive, EntriesOf, EffectOf;
    NoCheckDue(AfterInactive(s, env, now), now, id);
  }

  lemma EndBlockStarts(s: Store, env: Env, now: Time, id: nat)
    requires Inv(s) && PositiveQuorum(env) && !Started(s, id)
    ensures !Late(s, env, now, id)
    ensures var left := ChecksLeft(EntriesOf(EndBlock(s, env, now).quorum, id));
            if Started(EndBlock(s, env, now), id)
            then One(Checks(s, env, now, id)) + left <= AllChecks(s.params.checkCount)
            else !Checks(s, env, now, id)
  {
    hide Inv, EndBlock, AfterInactive, EntriesOf, OfProposal, ChecksLeft, Checks, Late, MeetsAtTurn, AllChecks, PositiveQuorum;
    if id in s.proposals && s.proposals[id].depositEnd <= now {
      if MeetsAtTurn(s, env, now, id) {
        ActivationChecks(s, env, now, id);
        DepositFate(s, env, now, id);
        assert ProposalOf(EndBlock(s, env, now).proposals, id) == LocalOf(EndBlock(s, env, now), id).proposal;
      } else {
        DroppedChecks(s, env, now, id);
      }
    } else {
      IdleChecks(s, env, now, id);
    }
  }

  lemma DroppedChecks(s: Store, env: Env, now: Time, id: nat)
    requires Inv(s) && PositiveQuorum(env) && id in s.proposals && s.proposals[id].status == DepositPeriod
    requires s.proposals[id].depositEnd <= now && !MeetsAtTurn(s, env, now, id)
    ensures !Late(s, env, now, id) && !Checks(s, env, now, id) && !Started(EndBlock(s, env, now), id)
  {
    hide Inv, EndBlock, AfterInactive, EntriesOf, OfProposal, Checks, Late, MeetsAtTurn, PositiveQuorum;
    DepositFate(s, env, now, id);
    DepositAfterInactive(s, env, now, id);
    NoEntryNoCheck(s, env, now, id);
    assert ProposalOf(EndBlock(s, env, now).proposals, id) == LocalOf(EndBlock(s, env, now), id).proposal;
  }

  lemma IdleChecks(s: Store, env: Env, now: Time, id: nat)
    requires Inv(s) && PositiveQuorum(env)
    requires id in s.proposals ==> s.proposals[id].status == DepositPeriod && s.proposals[id].depositEnd > now
    ensures !Late(s, env, now, id) && !Checks(s, env, now, id) && !Started(EndBlock(s, env, now), id)
  {
    hide Inv, EndBlock, AfterInactive, EntriesOf, OfProposal, Checks, Late, PositiveQuorum;
    IdleFate(s, env, now, id);
    NoEntryNoCheck(s, env, now, id);
    assert ProposalOf(EndBlock(s, env, now).proposals, id) == ProposalOf(s.proposals, id);
  }

  /**
   A proposal that has not started voting is checked, in its whole life, at most count + 1
   times for the check count in force where its voting starts, and not at all if it never
   starts or the count is zero; at most one of the checks finds a late quorum.
   */
  lemma {:induction false} CountPlusOneChecks(s: Store, env: Env, bs: seq<Block>, last: Time, id: nat)
    requires Good(s, last) && PositiveQuorum(env) && Timely(last, bs) && !Started(s, id)
    ensures var n := StartedIn(s, env, bs, id);
            CountChecks(s, env, bs, id) <= if n.Some? then AllChecks(n.value) else 0
    ensures CountLate(s, env, bs, id) <= 1
    decreases |bs|
  {
    hide Inv, PositiveQuorum, ApplyAll, EndBlock, EntriesOf, ChecksLeft, Checks, Late, AllChecks, Started, DaoParamsOk, StartedBy;
    if bs != [] {
      var b, s1, s2 := bs[0], ApplyAll(s, env, bs[0].time, bs[0].txs), Step(s, env, bs[0]);
      ApplyAllInv(s, env, b.time, b.txs, last);
      ApplyAllStarts(s, env, b.time, b.txs, id);
      StepGood(s, env, b, last);
      if Started(s1, id) {
        EndBlockUsed(s1, env, b.time, id);
        EndBlockStarted(s1, env, b.time, id);
        ChecksWithinAllowance(s2, env, bs[1..], b.time, id);
      } else {
        EndBlockStarts(s1, env, b.time, id);
        if Started(s2, id) {
          ChecksWithinAllowance(s2, env, bs[1..], b.time, id);
        } else {
          CountPlusOneChecks(s2, env, bs[1..], b.time, id);
        }
      }
    }
  }

  /** A late quorum extends a proposal at most once in any run. */
  lemma LateQuorumOnce(s: Store, env: Env, bs: seq<Block>, last: Time, id: nat)
    requires Good(s, last) && PositiveQuorum(env) && Timely(last, bs)
    ensures CountLate(s, env, bs, id) <= 1
  {
    hide Good, PositiveQuorum, Run, CountChecks, CountLate, ChecksLeft, EntriesOf;
    if Started(s, id) { ChecksWithinAllowance(s, env, bs, last, id); } else { CountPlusOneChecks(s, env, bs, last, id); }
  }
}
