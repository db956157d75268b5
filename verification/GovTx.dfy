/**
 Submitting, depositing and voting (x/gov/keeper/proposal.go, deposit.go, vote.go) as
 functions on the store.
 */
module GovTx {
  import opened Options
  import opened GovTypes
  import opened CoinSums
  import opened GovStore
  import opened GovEndBlock
  import opened GovInvariants
  import opened GovBlock
  import opened GovMoney
  import LegacyDec

  function NewProposal(messages: seq<Option<Message>>, depositEnd: Time): Proposal {
    Proposal(DepositPeriod, multiset{}, depositEnd, None, None, 0, "", false, messages, TallyResult(0, 0, 0))
  }

  /** SubmitProposal: a new proposal in its deposit period, and its entry in the inactive queue. */
  function Submit(s: Store, now: Time, messages: seq<Option<Message>>): Store {
    var id, end := s.nextId, now + s.params.depositPeriod;
    s.(proposals := s.proposals[id := NewProposal(messages, end)],
       inactive := s.inactive + {QKey(end, id)},
       nInactive := s.nInactive + 1,
       nextId := id + 1)
  }

  /** Coins go from an account to the gov account. */
  function Pay(w: World, who: Address, amount: Coins): World {
    w.(accounts := w.accounts[who := Get(w.accounts, who) - amount], gov := w.gov + amount)
  }

  /** The share of the minimum deposit that a single deposit has to bring, in at least one denom. */
  predicate MeetsRatio(minDeposit: Coins, ratio: int, amount: Coins) {
    exists d | d in minDeposit ::
      d in amount && amount[d] >= LegacyDec.TruncateInt(LegacyDec.Mul(LegacyDec.FromInt(minDeposit[d]), ratio))
  }

  /** The ratio is checked unless it is zero and the check is skipped. */
  predicate RatioChecked(s: Store, p: Proposal, skip: bool) {
    s.params.depositRatio != 0 || !(skip || MeetsDeposit(s, p))
  }

  /** AddDeposit. */
  function Deposit(s: Store, env: Env, now: Time, id: nat, who: Address, amount: Coins, skip: bool): Reply {
    if id !in s.proposals then Refused(UnknownProposal)
    else if !Open(s.proposals[id]) then Refused(InactiveProposal)
    else if RatioChecked(s, s.proposals[id], skip) && !MeetsRatio(RequiredDeposit(s), s.params.depositRatio, amount)
    then Refused(MinDepositTooSmall)
    else if !(amount <= Get(s.world.accounts, who)) then Refused(InsufficientFunds)
    else Done(Deposited(s, env, now, id, who, amount))
  }

  function Deposited(s: Store, env: Env, now: Time, id: nat, who: Address, amount: Coins): Store
    requires id in s.proposals
  {
    var p := s.proposals[id].(totalDeposit := s.proposals[id].totalDeposit + amount);
    var s1 := s.(proposals := s.proposals[id := p], world := Pay(s.world, who, amount));
    var s2 := if MeetsDeposit(s, p) then Activate(s1, env, now, id) else s1;
    s2.(deposits := AddAt(s2.deposits, DKey(id, who), amount))
  }

  /** MsgSubmitProposal: the initial deposit must meet the minimum; both steps or none. */
  function SubmitAndDeposit(s: Store, env: Env, now: Time, messages: seq<Option<Message>>, minInitial: Coins,
                            proposer: Address, amount: Coins): Reply {
    if !(minInitial <= amount) then Refused(MinDepositTooSmall)
    else Deposit(Submit(s, now, messages), env, now, s.nextId, proposer, amount, true)
  }

  /** AddVote: one vote a voter, only while the proposal is voting. */
  function CastVote(s: Store, id: nat, voter: Address, vote: Vote): Reply {
    if id !in s.proposals || s.proposals[id].status != VotingPeriod then Refused(InactiveProposal)
    else Done(s.(votes := s.votes[DKey(id, voter) := vote]))
  }

  // ---------------------------------------------------------------- submission

  lemma FreshProposal(s: Store)
    requires Queues(s)
    ensures s.nextId !in s.proposals
  {
  }

  lemma SubmitInv(s: Store, now: Time, messages: seq<Option<Message>>)
    requires Inv(s)
    ensures Inv(Submit(s, now, messages))
  {
    FreshProposal(s);
    hide Queues, Records, QuorumQueue, VotesOk, ParamsOk;
    SubmitQueues(s, now, messages);
    SubmitRecords(s, now, messages);
    SubmitRest(s, now, messages);
  }

  lemma SubmitQueues(s: Store, now: Time, messages: seq<Option<Message>>)
    requires Queues(s) && s.nextId !in s.proposals
    ensures Queues(Submit(s, now, messages))
  {
    hide IndexesActive, IndexesInactive;
    var s', id, p := Submit(s, now, messages), s.nextId, NewProposal(messages, now + s.params.depositPeriod);
    InactiveEnters(s.inactive, s.proposals, id, p);
    ActiveUntouched(s.active, s.proposals, id, s'.proposals);
  }

  lemma SubmitRest(s: Store, now: Time, messages: seq<Option<Message>>)
    requires QuorumQueue(s) && VotesOk(s) && s.nextId !in s.proposals
    ensures QuorumQueue(Submit(s, now, messages)) && VotesOk(Submit(s, now, messages))
  {
  }

  lemma SubmitRecords(s: Store, now: Time, messages: seq<Option<Message>>)
    requires Records(s) && s.nextId !in s.proposals
    ensures Records(Submit(s, now, messages))
  {
    assert OfProposal(s.deposits, s.nextId) == map[];
    SumEmpty(OfProposal(s.deposits, s.nextId));
    hide Sum;
  }

  // ---------------------------------------------------------------- deposits

  lemma AddDepositRecords(s: Store, id: nat, who: Address, amount: Coins)
    requires Records(s) && id in s.proposals && Open(s.proposals[id])
    ensures var p := s.proposals[id].(totalDeposit := s.proposals[id].totalDeposit + amount);
            Records(s.(proposals := s.proposals[id := p], world := Pay(s.world, who, amount),
                     deposits := AddAt(s.deposits, DKey(id, who), amount)))
  {
    hide Sum, OfProposal, AddAt, Pay;
    var k, ds := DKey(id, who), AddAt(s.deposits, DKey(id, who), amount);
    AddAtKeys(s.deposits, k, amount);
    SumAddAt(OfProposal(s.deposits, id), k, amount);
    OfProposalAddAt(s.deposits, k, amount);
    var p := s.proposals[id].(totalDeposit := s.proposals[id].totalDeposit + amount);
    var ps := s.proposals[id := p];
    forall d | d in ds ensures d.id in ps && Open(ps[d.id]) {
      if d != k { assert d in s.deposits; }
    }
    forall x | x in ps && Open(ps[x]) ensures ps[x].totalDeposit == Sum(OfProposal(ds, x)) {
      if x != id { OtherAddAt(s.deposits, k, amount, x); }
    }
  }

  lemma AddAtKeys(m: map<DKey, Coins>, k: DKey, c: Coins)
    ensures AddAt(m, k, c).Keys == m.Keys + {k}
  {
  }

  lemma OfProposalAddAt(m: map<DKey, Coins>, k: DKey, c: Coins)
    ensures OfProposal(AddAt(m, k, c), k.id) == AddAt(OfProposal(m, k.id), k, c)
  {
  }

  lemma OtherAddAt(m: map<DKey, Coins>, k: DKey, c: Coins, x: nat)
    requires x != k.id
    ensures OfProposal(AddAt(m, k, c), x) == OfProposal(m, x)
  {
  }

  /** The store with the deposit paid and recorded, before an activation. */
  function PaidStore(s: Store, id: nat, who: Address, amount: Coins): Store
    requires id in s.proposals
  {
    s.(proposals := s.proposals[id := s.proposals[id].(totalDeposit := s.proposals[id].totalDeposit + amount)],
       world := Pay(s.world, who, amount),
       deposits := AddAt(s.deposits, DKey(id, who), amount))
  }

  /** The order of the deposit record and the activation does not matter. */
  lemma DepositedOrder(s: Store, env: Env, now: Time, id: nat, who: Address, amount: Coins)
    requires id in s.proposals
    ensures var s1 := PaidStore(s, id, who, amount);
            Deposited(s, env, now, id, who, amount) == if MeetsDeposit(s1, s1.proposals[id]) then Activate(s1, env, now, id) else s1
  {
    hide AddAt, Get;
  }

  lemma PaidInv(s: Store, id: nat, who: Address, amount: Coins)
    requires Inv(s) && id in s.proposals && Open(s.proposals[id])
    ensures Inv(PaidStore(s, id, who, amount))
  {
    var s1 := PaidStore(s, id, who, amount);
    hide Queues, Records, QuorumQueue, VotesOk, AddAt, Pay, ParamsOk;
    AddDepositRecords(s, id, who, amount);
    var p := s1.proposals[id];
    QueuesUpdated(s, id, p);
    QueuesSame(s.(proposals := s.proposals[id := p]), s1);
    QuorumUpdated(s, id, s1);
    VotesUpdated(s, id, s1);
  }

  lemma DepositedInv(s: Store, env: Env, now: Time, id: nat, who: Address, amount: Coins)
    requires Inv(s) && id in s.proposals && Open(s.proposals[id])
    ensures Inv(Deposited(s, env, now, id, who, amount))
  {
    var s1 := PaidStore(s, id, who, amount);
    assert id in s1.proposals;
    DepositedOrder(s, env, now, id, who, amount);
    PaidInv(s, id, who, amount);
    hide Inv, Deposited, PaidStore, Activate, RequiredDeposit;
    if MeetsDeposit(s1, s1.proposals[id]) { ActivateInv(s1, env, now, id); }
  }

  lemma DepositInv(s: Store, env: Env, now: Time, id: nat, who: Address, amount: Coins, skip: bool)
    requires Inv(s)
    ensures var r := Deposit(s, env, now, id, who, amount, skip); r.Done? ==> Inv(r.store)
  {
    hide Inv, Deposited, RatioChecked, MeetsRatio;
    if Deposit(s, env, now, id, who, amount, skip).Done? { DepositedInv(s, env, now, id, who, amount); }
  }

  lemma PayTotal(w: World, who: Address, amount: Coins)
    requires amount <= Get(w.accounts, who)
    ensures Total(Pay(w, who, amount)) == Total(w) && Pay(w, who, amount).supply == w.supply
  {
    SumUpdate(w.accounts, who, Get(w.accounts, who) - amount);
    if who in w.accounts { SumRemove(w.accounts, who); } else { assert w.accounts - {who} == w.accounts; }
    hide Sum;
  }

  lemma DepositedShape(s: Store, env: Env, now: Time, id: nat, who: Address, amount: Coins)
    requires id in s.proposals
    ensures Deposited(s, env, now, id, who, amount).world == Pay(s.world, who, amount)
    ensures Deposited(s, env, now, id, who, amount).deposits == AddAt(s.deposits, DKey(id, who), amount)
  {
    hide AddAt, Pay;
  }

  lemma DepositFlow(s: Store, s': Store, amount: Coins)
    requires s'.world.gov == s.world.gov + amount && Sum(s'.deposits) == Sum(s.deposits) + amount
    requires Total(s'.world) == Total(s.world) && s'.world.supply == s.world.supply
    ensures Accounts(s, s', STILL) && (SupplyIsTotal(s.world) ==> Booked(s, s', STILL))
  {
    var a, b := Sum(s.deposits), Sum(s'.deposits);
    hide Sum, Total;
    var none: Coins := multiset{};
    assert s'.world.gov + a + none == s.world.gov + none + b;
    assert s.world.supply + none == s.world.supply;
  }

  /** A deposit moves coins from the depositor to the gov account and is recorded in full, whatever else it starts. */
  lemma DepositedExact(s: Store, env: Env, now: Time, id: nat, who: Address, amount: Coins)
    requires id in s.proposals && amount <= Get(s.world.accounts, who)
    ensures var s' := Deposited(s, env, now, id, who, amount);
            && Get(s'.deposits, DKey(id, who)) == Get(s.deposits, DKey(id, who)) + amount
            && Get(s'.world.accounts, who) + amount == Get(s.world.accounts, who)
            && Total(s'.world) == Total(s.world) && s'.world.supply == s.world.supply
            && s'.world.gov == s.world.gov + amount && Sum(s'.deposits) == Sum(s.deposits) + amount
            && Accounts(s, s', STILL) && (SupplyIsTotal(s.world) ==> Booked(s, s', STILL))
  {
    PayTotal(s.world, who, amount);
    SumAddAt(s.deposits, DKey(id, who), amount);
    DepositedShape(s, env, now, id, who, amount);
    hide Sum, Total, Deposited;
    DepositFlow(s, Deposited(s, env, now, id, who, amount), amount);
  }

  /**
   The ratio check is made for every deposit while the ratio is not zero, even where the caller
   asked to skip it; and with a zero ratio it is still made unless skipped, and then demands a
   denom of the minimum deposit.
   */
  lemma SkipHasNoEffect(s: Store, env: Env, now: Time, id: nat, who: Address, amount: Coins)
    requires s.params.depositRatio != 0
    ensures Deposit(s, env, now, id, who, amount, true) == Deposit(s, env, now, id, who, amount, false)
  {
  }

  lemma ZeroRatioStillChecked(s: Store, env: Env, now: Time, id: nat, who: Address, amount: Coins)
    requires s.params.depositRatio == 0 && id in s.proposals && Open(s.proposals[id])
    requires var least := if s.minDeposit.value == multiset{} then s.params.depositFloor else s.minDeposit.value;
             !(s.proposals[id].status == DepositPeriod && least <= s.proposals[id].totalDeposit)
    ensures var least := if s.minDeposit.value == multiset{} then s.params.depositFloor else s.minDeposit.value;
            Deposit(s, env, now, id, who, amount, false) == Refused(MinDepositTooSmall) <==>
            forall d | d in least :: d !in amount
  {
    forall d | d in RequiredDeposit(s) ensures LegacyDec.TruncateInt(LegacyDec.Mul(LegacyDec.FromInt(RequiredDeposit(s)[d]), 0)) == 0 {
    }
    hide Deposited;
  }

  // ---------------------------------------------------------------- the whole deposit

  /** The amount is below the ratio's share of the minimum in every denom: compared exactly, with the share truncated. */
  predicate TooSmall(least: Coins, ratio: int, amount: Coins) {
    forall d | d in least && d in amount :: (amount[d] + 1) * 1_000_000_000_000_000_000 <= least[d] * ratio
  }

  /** A truncated share: reached exactly when one unit more exceeds the share. */
  lemma ShareReached(least: nat, ratio: int, amount: nat)
    ensures amount >= LegacyDec.TruncateInt(LegacyDec.Mul(LegacyDec.FromInt(least), ratio)) <==>
            (amount + 1) * 1_000_000_000_000_000_000 > least * ratio
  {
    LegacyDec.MulFromInt(least, ratio);
    hide LegacyDec.Mul;
    var x := least * ratio;
    assert LegacyDec.TruncateInt(x) == if x >= 0 then x / LegacyDec.ONE else -((-x) / LegacyDec.ONE);
    if x >= 0 {
      LegacyDec.DivBound(x, LegacyDec.ONE);
    }
  }

  lemma RatioIff(least: Coins, ratio: int, amount: Coins)
    ensures MeetsRatio(least, ratio, amount) <==> !TooSmall(least, ratio, amount)
  {
    forall d | d in least && d in amount
      ensures amount[d] >= LegacyDec.TruncateInt(LegacyDec.Mul(LegacyDec.FromInt(least[d]), ratio)) <==>
              (amount[d] + 1) * 1_000_000_000_000_000_000 > least[d] * ratio
    {
      ShareReached(least[d], ratio, amount[d]);
    }
    hide LegacyDec.Mul, LegacyDec.TruncateInt, LegacyDec.FromInt;
  }

  /** A deposit is refused for just these reasons, in this order, where least is the minimum deposit in force. */
  lemma DepositRefusals(s: Store, env: Env, now: Time, id: nat, who: Address, amount: Coins, skip: bool)
    ensures var r := Deposit(s, env, now, id, who, amount, skip);
            var least := if s.minDeposit.value == multiset{} then s.params.depositFloor else s.minDeposit.value;
            if id !in s.proposals then r == Refused(UnknownProposal)
            else
              var p := s.proposals[id];
              if p.status != DepositPeriod && p.status != VotingPeriod then r == Refused(InactiveProposal)
              else if && (s.params.depositRatio != 0 || !(skip || (p.status == DepositPeriod && least <= p.totalDeposit)))
                      && TooSmall(least, s.params.depositRatio, amount)
              then r == Refused(MinDepositTooSmall)
              else if amount <= (if who in s.world.accounts then s.world.accounts[who] else multiset{}) then r.Done?
              else r == Refused(InsufficientFunds)
  {
    RatioIff(RequiredDeposit(s), s.params.depositRatio, amount);
    hide MeetsRatio, TooSmall, Deposited;
  }

  /** s with an amount from a depositor in the gov account, in the deposits, and in the proposal's total. */
  function WithDeposit(s: Store, id: nat, p: Proposal, who: Address, amount: Coins): Store {
    s.(proposals := s.proposals[id := p.(totalDeposit := p.totalDeposit + amount)],
       deposits := s.deposits[DKey(id, who) := (if DKey(id, who) in s.deposits then s.deposits[DKey(id, who)] else multiset{}) + amount],
       world := s.world.(gov := s.world.gov + amount,
                         accounts := s.world.accounts[who := (if who in s.world.accounts then s.world.accounts[who] else multiset{}) - amount]))
  }

  /** s with the proposal voting from now on: out of one queue, into the other two, and the minimum deposit adjusted. */
  function WithVote(s: Store, env: Env, now: Time, id: nat, p: Proposal): Store {
    s.(proposals := s.proposals[id := p.(status := VotingPeriod, votingStart := Some(now), votingEnd := Some(now + s.params.votingPeriod))],
       inactive := s.inactive - {QKey(p.depositEnd, id)}, nInactive := if s.nInactive > 0 then s.nInactive - 1 else 0,
       active := s.active + {QKey(now + s.params.votingPeriod, id)}, nActive := s.nActive + 1,
       quorum := if s.params.checkCount == 0 then s.quorum
                 else s.quorum[QKey(now + s.params.quorumTimeout, id) :=
                               QuorumEntry(now + s.params.quorumTimeout, s.params.checkCount, 0)],
       minDeposit := env.throttle(s.params, s.minDeposit, s.nActive + 1, false, now))
  }

  /**
   An accepted deposit, with the whole store it leaves.  It starts the vote if and only if the
   proposal is in its deposit period and its total now reaches the minimum in force: the last
   one stored, or the floor while none is.
   */
  lemma DepositWhole(s: Store, env: Env, now: Time, id: nat, who: Address, amount: Coins, skip: bool)
    requires Inv(s) && Deposit(s, env, now, id, who, amount, skip).Done?
    ensures id in s.proposals && (s.proposals[id].status == DepositPeriod ==> s.nInactive > 0)
    ensures var p, s' := s.proposals[id], Deposit(s, env, now, id, who, amount, skip).store;
            var least := if s.minDeposit.value == multiset{} then s.params.depositFloor else s.minDeposit.value;
            var s1 := WithDeposit(s, id, p, who, amount);
            s' == if p.status == DepositPeriod && least <= p.totalDeposit + amount
                  then WithVote(s1, env, now, id, p.(totalDeposit := p.totalDeposit + amount)) else s1
  {
    if s.proposals[id].status == DepositPeriod { ActivateQueues(s, env, now, id); }
    hide Inv, RatioChecked, MeetsRatio, Activate, Queues;
    DepositedAs(s, env, now, id, who, amount);
    hide Deposited, WithVote, WithDeposit;
  }

  /** The store with the deposit, and with the vote it starts. */
  lemma DepositedAs(s: Store, env: Env, now: Time, id: nat, who: Address, amount: Coins)
    requires id in s.proposals && (s.proposals[id].status == DepositPeriod ==> s.nInactive > 0)
    ensures var p, s1 := s.proposals[id], WithDeposit(s, id, s.proposals[id], who, amount);
            Deposited(s, env, now, id, who, amount) ==
            if p.status == DepositPeriod && RequiredDeposit(s) <= p.totalDeposit + amount
            then WithVote(s1, env, now, id, p.(totalDeposit := p.totalDeposit + amount)) else s1
  {
    var p, s1 := s.proposals[id], WithDeposit(s, id, s.proposals[id], who, amount);
    assert s1 == PaidStore(s, id, who, amount);
    DepositedOrder(s, env, now, id, who, amount);
    hide Deposited, PaidStore, RequiredDeposit;
    assert RequiredDeposit(s1) == RequiredDeposit(s) by { RequiredSame(s, s1); }
  }

  lemma RequiredSame(s: Store, s': Store)
    requires s.minDeposit == s'.minDeposit && s.params == s'.params
    ensures RequiredDeposit(s) == RequiredDeposit(s')
  {
  }

  /** A submission is refused if its deposit is below the initial minimum, or as a deposit, which may not skip the ratio. */
  lemma SubmissionRefusals(s: Store, env: Env, now: Time, messages: seq<Option<Message>>, minInitial: Coins,
                           proposer: Address, amount: Coins)
    ensures var r := SubmitAndDeposit(s, env, now, messages, minInitial, proposer, amount);
            var least := if s.minDeposit.value == multiset{} then s.params.depositFloor else s.minDeposit.value;
            if !(minInitial <= amount) || (s.params.depositRatio != 0 && TooSmall(least, s.params.depositRatio, amount))
            then r == Refused(MinDepositTooSmall)
            else if amount <= (if proposer in s.world.accounts then s.world.accounts[proposer] else multiset{}) then r.Done?
            else r == Refused(InsufficientFunds)
  {
    var s1 := Submit(s, now, messages);
    DepositRefusals(s1, env, now, s.nextId, proposer, amount, true);
    hide Deposit, TooSmall;
  }

  /**
   An accepted submission: the next id, a deposit period of the length in force with the
   messages and nothing else set, the deposit recorded and paid; and a vote that starts at
   once if the deposit reaches the minimum in force.
   */
  lemma SubmissionWhole(s: Store, env: Env, now: Time, messages: seq<Option<Message>>, minInitial: Coins,
                        proposer: Address, amount: Coins)
    requires Inv(s) && SubmitAndDeposit(s, env, now, messages, minInitial, proposer, amount).Done?
    ensures var s', id, end := SubmitAndDeposit(s, env, now, messages, minInitial, proposer, amount).store, s.nextId, now + s.params.depositPeriod;
            var least := if s.minDeposit.value == multiset{} then s.params.depositFloor else s.minDeposit.value;
            var p := Proposal(DepositPeriod, multiset{}, end, None, None, 0, "", false, messages, TallyResult(0, 0, 0));
            var s1 := WithDeposit(s.(nextId := id + 1, inactive := s.inactive + {QKey(end, id)}, nInactive := s.nInactive + 1),
                                  id, p, proposer, amount);
            && id !in s.proposals && (forall who :: DKey(id, who) !in s.deposits)
            && s' == if least <= amount then WithVote(s1, env, now, id, p.(totalDeposit := amount)) else s1
  {
    hide Inv, SubmitAndDeposit, Submit, Deposit, Deposited, WithVote, WithDeposit;
    NothingAtNextId(s, now);
    var id, end := s.nextId, now + s.params.depositPeriod;
    var p := Proposal(DepositPeriod, multiset{}, end, None, None, 0, "", false, messages, TallyResult(0, 0, 0));
    AcceptedSubmission(s, env, now, messages, minInitial, proposer, amount);
    SubmittedAs(s.(nextId := id + 1, inactive := s.inactive + {QKey(end, id)}, nInactive := s.nInactive + 1),
                env, now, id, p, proposer, amount);
  }

  lemma AcceptedSubmission(s: Store, env: Env, now: Time, messages: seq<Option<Message>>, minInitial: Coins,
                           proposer: Address, amount: Coins)
    requires SubmitAndDeposit(s, env, now, messages, minInitial, proposer, amount).Done?
    ensures var id, end := s.nextId, now + s.params.depositPeriod;
            var p := Proposal(DepositPeriod, multiset{}, end, None, None, 0, "", false, messages, TallyResult(0, 0, 0));
            var s0 := s.(nextId := id + 1, inactive := s.inactive + {QKey(end, id)}, nInactive := s.nInactive + 1);
            && id in s0.(proposals := s0.proposals[id := p]).proposals
            && SubmitAndDeposit(s, env, now, messages, minInitial, proposer, amount).store ==
               Deposited(s0.(proposals := s0.proposals[id := p]), env, now, id, proposer, amount)
  {
    hide Deposited, RatioChecked, MeetsRatio;
  }

  /** The deposit of a new proposal. */
  lemma SubmittedAs(s: Store, env: Env, now: Time, id: nat, p: Proposal, proposer: Address, amount: Coins)
    requires s.nInactive > 0 && p.status == DepositPeriod && p.totalDeposit == multiset{}
    ensures var s1 := WithDeposit(s, id, p, proposer, amount);
            Deposited(s.(proposals := s.proposals[id := p]), env, now, id, proposer, amount) ==
            if RequiredDeposit(s) <= amount then WithVote(s1, env, now, id, p.(totalDeposit := amount)) else s1
  {
    hide WithVote, WithDeposit, RequiredDeposit, Deposited;
    DepositedAs(s.(proposals := s.proposals[id := p]), env, now, id, proposer, amount);
    WithDepositOver(s, id, p, proposer, amount);
    RequiredSame(s.(proposals := s.proposals[id := p]), s);
    var none: Coins := multiset{};
    assert none + amount == amount;
  }

  lemma WithDepositOver(s: Store, id: nat, p: Proposal, who: Address, amount: Coins)
    ensures WithDeposit(s.(proposals := s.proposals[id := p]), id, p, who, amount) == WithDeposit(s, id, p, who, amount)
  {
    Overwritten(s.proposals, id, p, p.(totalDeposit := p.totalDeposit + amount));
  }

  lemma Overwritten<K, V>(m: map<K, V>, k: K, a: V, b: V)
    ensures m[k := a][k := b] == m[k := b]
  {
  }

  /** Nothing is stored yet for the next id. */
  lemma NothingAtNextId(s: Store, now: Time)
    requires Inv(s)
    ensures s.nextId !in s.proposals && forall who :: DKey(s.nextId, who) !in s.deposits
  {
    FreshProposal(s);
  }

  // ---------------------------------------------------------------- votes

  /** A vote is accepted only while its proposal is voting; it replaces the voter's earlier one, and no other vote changes. */
  lemma CastVoteExact(s: Store, id: nat, voter: Address, vote: Vote)
    ensures var r := CastVote(s, id, voter, vote);
            if id in s.proposals && s.proposals[id].status == VotingPeriod
            then && r.Done? && r.store == s.(votes := r.store.votes)
                 && VotesOf(r.store, id) == VotesOf(s, id)[voter := vote]
                 && forall x | x != id :: VotesOf(r.store, x) == VotesOf(s, x)
            else r == Refused(InactiveProposal)
  {
    if id in s.proposals && s.proposals[id].status == VotingPeriod {
      VotesWithOne(s, id, voter, vote);
      hide VotesOf;
    }
  }

  lemma VotesWithOne(s: Store, id: nat, voter: Address, vote: Vote)
    ensures var s' := s.(votes := s.votes[DKey(id, voter) := vote]);
            VotesOf(s', id) == VotesOf(s, id)[voter := vote] && forall x | x != id :: VotesOf(s', x) == VotesOf(s, x)
  {
    var s' := s.(votes := s.votes[DKey(id, voter) := vote]);
    SameVotes(s, s', id, VotesOf(s, id)[voter := vote], id, voter, vote);
    forall x | x != id ensures VotesOf(s', x) == VotesOf(s, x) {
      SameVotes(s, s', x, VotesOf(s, x), id, voter, vote);
    }
    hide VotesOf;
  }

  lemma SameVotes(s: Store, s': Store, x: nat, m: map<Address, Vote>, id: nat, voter: Address, vote: Vote)
    requires s'.votes == s.votes[DKey(id, voter) := vote]
    requires m == if x == id then VotesOf(s, x)[voter := vote] else VotesOf(s, x)
    ensures VotesOf(s', x) == m
  {
    forall a ensures a in VotesOf(s', x) <==> a in m {
      VotesAreStored(s, x, a);
      VotesAreStored(s', x, a);
    }
    forall a | a in m ensures VotesOf(s', x)[a] == m[a] {
      VotesAreStored(s, x, a);
      VotesAreStored(s', x, a);
    }
    hide VotesOf;
  }

  lemma CastVoteInv(s: Store, id: nat, voter: Address, vote: Vote)
    requires Inv(s)
    ensures CastVote(s, id, voter, vote).Done? ==> Inv(CastVote(s, id, voter, vote).store)
  {
    hide IndexesActive, IndexesInactive, AllTimes, Sum;
  }
}
