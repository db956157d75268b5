/**
 The invariants of the governance store, and their preservation by every step of the
 block's end.  The queues are indexes of the proposals, the counters are their sizes, the
 quorum-check queue has at most one well-placed entry a proposal, only proposals that were
 voted on have votes, and the deposits are those of the open proposals.
 */
module GovInvariants {
  import opened Options
  import opened GovTypes
  import opened CoinSums
  import opened GovQueue
  import opened GovStore
  import opened GovEndBlock

  ghost predicate IndexesInactive(inactive: set<QKey>, proposals: map<nat, Proposal>) {
    forall k: QKey :: k in inactive <==>
      k.id in proposals && proposals[k.id].status == DepositPeriod && proposals[k.id].depositEnd == k.time
  }

  ghost predicate IndexesActive(active: set<QKey>, proposals: map<nat, Proposal>) {
    forall k: QKey :: k in active <==>
      k.id in proposals && proposals[k.id].status == VotingPeriod && proposals[k.id].votingEnd == Some(k.time)
  }

  predicate Times(p: Proposal) {
    && (p.status == VotingPeriod ==> p.votingStart.Some? && p.votingEnd.Some?)
    && (p.status == DepositPeriod ==> p.votingStart.None? && p.votingEnd.None?)
  }

  /** The two queues are the indexes of the proposals by status and end time; the counters are their sizes. */
  ghost predicate Queues(s: Store) {
    && IndexesInactive(s.inactive, s.proposals)
    && IndexesActive(s.active, s.proposals)
    && s.nInactive == |s.inactive|
    && s.nActive == |s.active|
    && AllTimes(s.proposals, s.nextId)
  }

  ghost predicate AllTimes(ps: map<nat, Proposal>, nextId: nat) {
    forall id | id in ps :: id < nextId && Times(ps[id])
  }

  /** A quorum-check entry: not before its timeout, not after the voting period, and with checks to make. */
  predicate EntryOk(time: Time, e: QuorumEntry, p: Proposal) {
    && (p.status == VotingPeriod || p.status == Vetoed)
    && p.votingEnd.Some?
    && e.timeout <= time <= p.votingEnd.value
    && e.done <= e.count
    && 1 <= e.count
  }

  ghost predicate QuorumQueue(s: Store) {
    && (forall k | k in s.quorum :: k.id in s.proposals && EntryOk(k.time, s.quorum[k], s.proposals[k.id]))
    && (forall k, k' | k in s.quorum && k' in s.quorum && k.id == k'.id :: k == k')
  }

  /** Votes belong to proposals that are or were voted on, and a veto leaves none. */
  ghost predicate VotesOk(s: Store) {
    forall d | d in s.votes ::
      d.id in s.proposals && s.proposals[d.id].status != DepositPeriod && s.proposals[d.id].status != Vetoed
  }

  predicate Open(p: Proposal) {
    p.status == DepositPeriod || p.status == VotingPeriod
  }

  /** Only open proposals hold deposits, and their totals are right. */
  ghost predicate Records(s: Store) {
    && (forall d | d in s.deposits :: d.id in s.proposals && Open(s.proposals[d.id]))
    && forall id | id in s.proposals && Open(s.proposals[id]) ::
         s.proposals[id].totalDeposit == Sum(OfProposal(s.deposits, id))
  }

  /** The gov account covers the stored deposits. */
  ghost predicate Solvent(s: Store) {
    Sum(s.deposits) <= s.world.gov
  }

  /** What the queues need of ValidateBasic: every set of parameters that it accepts meets this. */
  predicate ParamsOk(g: GovParams) {
    0 < g.votingPeriod && (g.checkCount > 0 ==> 0 <= g.quorumTimeout < g.votingPeriod)
  }

  ghost predicate Inv(s: Store) {
    Queues(s) && QuorumQueue(s) && VotesOk(s) && Records(s) && ParamsOk(s.params)
  }

  /** The required quorum is positive: no quorum range with a zero minimum at zero participation. */
  ghost predicate PositiveQuorum(env: Env) {
    forall w, p :: env.quorum(w, p) > 0
  }

  // ---------------------------------------------------------------- indexes

  lemma InactiveLeaves(q: set<QKey>, ps: map<nat, Proposal>, id: nat, ps': map<nat, Proposal>)
    requires IndexesInactive(q, ps) && id in ps && ps[id].status == DepositPeriod
    requires forall x | x != id :: (x in ps <==> x in ps') && (x in ps ==> ps'[x] == ps[x])
    requires id in ps' ==> ps'[id].status != DepositPeriod
    ensures IndexesInactive(q - {QKey(ps[id].depositEnd, id)}, ps')
    ensures QKey(ps[id].depositEnd, id) in q && |q - {QKey(ps[id].depositEnd, id)}| == |q| - 1
  {
    assert QKey(ps[id].depositEnd, id) in q;
  }

  lemma InactiveEnters(q: set<QKey>, ps: map<nat, Proposal>, id: nat, p: Proposal)
    requires IndexesInactive(q, ps) && id !in ps && p.status == DepositPeriod
    ensures IndexesInactive(q + {QKey(p.depositEnd, id)}, ps[id := p])
    ensures |q + {QKey(p.depositEnd, id)}| == |q| + 1
  {
    assert QKey(p.depositEnd, id) !in q;
  }

  lemma InactiveUntouched(q: set<QKey>, ps: map<nat, Proposal>, id: nat, p: Proposal)
    requires IndexesInactive(q, ps) && id in ps && ps[id].status != DepositPeriod && p.status != DepositPeriod
    ensures IndexesInactive(q, ps[id := p])
  {
  }

  lemma ActiveEnters(q: set<QKey>, ps: map<nat, Proposal>, id: nat, p: Proposal)
    requires IndexesActive(q, ps) && (id in ps ==> ps[id].status != VotingPeriod)
    requires p.status == VotingPeriod && p.votingEnd.Some?
    ensures IndexesActive(q + {QKey(p.votingEnd.value, id)}, ps[id := p])
    ensures |q + {QKey(p.votingEnd.value, id)}| == |q| + 1
  {
    assert QKey(p.votingEnd.value, id) !in q;
  }

  lemma ActiveLeaves(q: set<QKey>, ps: map<nat, Proposal>, id: nat, p: Proposal)
    requires IndexesActive(q, ps) && id in ps && ps[id].status == VotingPeriod && ps[id].votingEnd.Some?
    requires p.status != VotingPeriod
    ensures IndexesActive(q - {QKey(ps[id].votingEnd.value, id)}, ps[id := p])
    ensures QKey(ps[id].votingEnd.value, id) in q && |q - {QKey(ps[id].votingEnd.value, id)}| == |q| - 1
  {
    assert QKey(ps[id].votingEnd.value, id) in q;
  }

  lemma ActiveUntouched(q: set<QKey>, ps: map<nat, Proposal>, id: nat, ps': map<nat, Proposal>)
    requires IndexesActive(q, ps) && (id in ps ==> ps[id].status != VotingPeriod)
    requires forall x | x != id :: (x in ps <==> x in ps') && (x in ps ==> ps'[x] == ps[x])
    requires id in ps' ==> ps'[id].status != VotingPeriod
    ensures IndexesActive(q, ps')
  {
  }

  lemma TimesUpdate(ps: map<nat, Proposal>, nextId: nat, id: nat, p: Proposal)
    requires AllTimes(ps, nextId) && id < nextId && Times(p)
    ensures AllTimes(ps[id := p], nextId)
  {
  }

  /** Changes at a proposal without an entry do not concern the quorum-check queue. */
  lemma QuorumUntouched(s: Store, id: nat, s': Store)
    requires QuorumQueue(s) && s'.quorum == s.quorum && forall k | k in s.quorum :: k.id != id
    requires forall x | x != id :: (x in s.proposals <==> x in s'.proposals) && (x in s.proposals ==> s'.proposals[x] == s.proposals[x])
    ensures QuorumQueue(s')
  {
  }

  lemma VotesUntouched(s: Store, id: nat, s': Store)
    requires VotesOk(s) && s'.votes.Keys <= s.votes.Keys
    requires forall x | x != id :: x in s.proposals ==> x in s'.proposals && s'.proposals[x] == s.proposals[x]
    requires (forall d | d in s'.votes :: d.id != id) ||
             (id in s'.proposals && s'.proposals[id].status != DepositPeriod && s'.proposals[id].status != Vetoed)
    ensures VotesOk(s')
  {
  }

  lemma DepositAt(s: Store, k: QKey)
    requires Inv(s) && k in s.inactive
    ensures k.id in s.proposals && s.proposals[k.id].status == DepositPeriod && s.proposals[k.id].depositEnd == k.time
  {
  }

  lemma VotingAt(s: Store, k: QKey)
    requires Inv(s) && k in s.active
    ensures k.id in s.proposals && s.proposals[k.id].status == VotingPeriod && s.proposals[k.id].votingEnd == Some(k.time)
  {
  }

  lemma TotalIsOwed(s: Store, id: nat)
    requires Inv(s) && id in s.proposals && Open(s.proposals[id])
    ensures s.proposals[id].totalDeposit == Sum(OfProposal(s.deposits, id))
  {
    hide Sum, OfProposal;
  }

  // ---------------------------------------------------------------- activation

  lemma ActivateQueues(s: Store, env: Env, now: Time, id: nat)
    requires Queues(s) && id in s.proposals && s.proposals[id].status == DepositPeriod
    ensures Queues(Activate(s, env, now, id)) && s.nInactive > 0
  {
    var p := s.proposals[id];
    var p' := VotingProposal(p, now, s.params.votingPeriod);
    InactiveLeaves(s.inactive, s.proposals, id, s.proposals[id := p']);
    ActiveEnters(s.active, s.proposals, id, p');
    TimesUpdate(s.proposals, s.nextId, id, p');
    hide IndexesActive, IndexesInactive, AllTimes;
  }

  lemma ActivateQuorum(s: Store, env: Env, now: Time, id: nat)
    requires QuorumQueue(s) && ParamsOk(s.params) && id in s.proposals && s.proposals[id].status == DepositPeriod
    ensures QuorumQueue(Activate(s, env, now, id))
  {
    assert forall k | k in s.quorum :: k.id != id;
  }

  lemma ActivateRecords(s: Store, env: Env, now: Time, id: nat)
    requires Records(s) && id in s.proposals && s.proposals[id].status == DepositPeriod
    ensures Records(Activate(s, env, now, id))
  {
    hide Sum;
  }

  lemma ActivateInv(s: Store, env: Env, now: Time, id: nat)
    requires Inv(s) && id in s.proposals && s.proposals[id].status == DepositPeriod
    ensures Inv(Activate(s, env, now, id))
  {
    ActivateQueues(s, env, now, id);
    ActivateQuorum(s, env, now, id);
    ActivateRecords(s, env, now, id);
    hide Queues, QuorumQueue, Records;
  }

  // ---------------------------------------------------------------- settling deposits

  /** The gov account cannot pay the deposits of the proposal. */
  ghost predicate Short(s: Store, id: nat) {
    !(Sum(OfProposal(s.deposits, id)) <= s.world.gov)
  }

  /** Settling a proposal's deposits changes the records and the world, and panics if the account is short. */
  lemma SettleShape(s: Store, id: nat, burn: bool)
    ensures var s' := SettleDeposits(s, id, burn);
            && s'.deposits == Without(s.deposits, id)
            && s' == s.(deposits := s'.deposits, world := s'.world, halted := s.halted || Short(s, id))
  {
    hide Sum, PayBack;
  }

  // ---------------------------------------------------------------- dropping a proposal

  /** Deletion of a proposal that missed its deposit. */
  lemma DropShape(s: Store, env: Env, now: Time, id: nat)
    requires id in s.proposals && s.proposals[id].votingEnd.None? && !MeetsDeposit(s, s.proposals[id])
    ensures var s' := InactiveStep(s, env, now, id);
            s' == s.(proposals := s.proposals - {id}, inactive := s.inactive - {QKey(s.proposals[id].depositEnd, id)},
                     nInactive := Pred(s.nInactive), deposits := Without(s.deposits, id),
                     world := s'.world, halted := s.halted || Short(s, id) || s.nInactive == 0)
  {
    SettleShape(DeleteProposal(s, id), id, s.params.burnPrevote);
    hide SettleDeposits, Sum, Without, OfProposal, RequiredDeposit;
  }

  /** Removing or closing a proposal together with its deposits. */
  lemma ClosedRecords(s: Store, id: nat, s': Store)
    requires Records(s) && s'.deposits == Without(s.deposits, id)
    requires forall x | x != id :: (x in s.proposals <==> x in s'.proposals) && (x in s.proposals ==> s'.proposals[x] == s.proposals[x])
    requires id in s'.proposals ==> !Open(s'.proposals[id])
    ensures Records(s')
  {
    hide Sum;
    forall x | x in s'.proposals && Open(s'.proposals[x])
      ensures s'.proposals[x].totalDeposit == Sum(OfProposal(s'.deposits, x))
    {
      OfProposalFrame(s.deposits, x, id);
    }
  }

  lemma DropInv(s: Store, env: Env, now: Time, id: nat)
    requires Inv(s) && id in s.proposals && s.proposals[id].status == DepositPeriod
    requires !MeetsDeposit(s, s.proposals[id])
    ensures Inv(InactiveStep(s, env, now, id))
  {
    KnownId(s, id);
    DropShape(s, env, now, id);
    var s' := InactiveStep(s, env, now, id);
    hide InactiveStep, Sum;
    ClosedRecords(s, id, s');
    InactiveLeaves(s.inactive, s.proposals, id, s'.proposals);
    ActiveUntouched(s.active, s.proposals, id, s'.proposals);
    QuorumUntouched(s, id, s');
    VotesUntouched(s, id, s');
    hide Records, IndexesInactive, IndexesActive, QuorumQueue, VotesOk;
  }

  /** One step of the inactive pass. */
  lemma InactiveStepInv(s: Store, env: Env, now: Time, k: QKey)
    requires Inv(s) && k in s.inactive
    ensures Inv(InactiveStep(s, env, now, k.id))
    ensures InactiveStep(s, env, now, k.id).inactive == s.inactive - {k}
  {
    var p := s.proposals[k.id];
    assert p.status == DepositPeriod && p.depositEnd == k.time;
    assert k == QKey(k.time, k.id);
    if MeetsDeposit(s, p) {
      ActivateInv(s, env, now, k.id);
    } else {
      DropInv(s, env, now, k.id);
      DropShape(s, env, now, k.id);
    }
    hide Inv, SettleDeposits;
  }

  // ---------------------------------------------------------------- updates of one proposal

  /** s' differs from s at most at the proposal id, which both have. */
  ghost predicate DiffersAt(s: Store, s': Store, id: nat) {
    && id in s.proposals && id in s'.proposals
    && forall x | x != id :: (x in s.proposals <==> x in s'.proposals) && (x in s.proposals ==> s'.proposals[x] == s.proposals[x])
  }

  /** A later end, or a veto, keeps the entries well placed. */
  lemma QuorumUpdated(s: Store, id: nat, s': Store)
    requires QuorumQueue(s) && s'.quorum == s.quorum && DiffersAt(s, s', id)
    requires s'.proposals[id].status == s.proposals[id].status || s'.proposals[id].status == Vetoed
    requires s.proposals[id].votingEnd.Some? ==>
               s'.proposals[id].votingEnd.Some? && s.proposals[id].votingEnd.value <= s'.proposals[id].votingEnd.value
    ensures QuorumQueue(s')
  {
    forall k | k in s'.quorum ensures k.id in s'.proposals && EntryOk(k.time, s'.quorum[k], s'.proposals[k.id]) {
      assert EntryOk(k.time, s.quorum[k], s.proposals[k.id]);
    }
  }

  lemma RecordsUpdated(s: Store, id: nat, s': Store)
    requires Records(s) && s'.deposits == s.deposits && DiffersAt(s, s', id)
    requires Open(s'.proposals[id]) == Open(s.proposals[id]) && s'.proposals[id].totalDeposit == s.proposals[id].totalDeposit
    ensures Records(s')
  {
    hide Sum, OfProposal;
  }

  lemma VotesUpdated(s: Store, id: nat, s': Store)
    requires VotesOk(s) && s'.votes == s.votes && DiffersAt(s, s', id)
    requires s'.proposals[id].status == s.proposals[id].status
    ensures VotesOk(s')
  {
  }

  /** The queues look only at status and times. */
  lemma QueuesUpdated(s: Store, id: nat, p: Proposal)
    requires Queues(s) && id in s.proposals
    requires p.status == s.proposals[id].status && p.depositEnd == s.proposals[id].depositEnd
    requires p.votingStart == s.proposals[id].votingStart && p.votingEnd == s.proposals[id].votingEnd
    ensures Queues(s.(proposals := s.proposals[id := p]))
  {
  }

  // ---------------------------------------------------------------- quorum checks

  lemma MoveEndQueues(s: Store, id: nat, end: Time)
    requires Queues(s) && id in s.proposals && s.proposals[id].status == VotingPeriod
    ensures Queues(MoveEnd(s, id, s.proposals[id], end))
  {
    var p := s.proposals[id];
    var closed := p.(status := Rejected);
    var p' := p.(votingEnd := Some(end));
    ActiveLeaves(s.active, s.proposals, id, closed);
    ActiveEnters(s.active - {QKey(p.votingEnd.value, id)}, s.proposals[id := closed], id, p');
    assert s.proposals[id := closed][id := p'] == s.proposals[id := p'];
    InactiveUntouched(s.inactive, s.proposals, id, p');
    hide IndexesActive, IndexesInactive;
  }

  /** A proposal without votes never reaches a positive quorum. */
  lemma VetoedNotReached(s: Store, env: Env, id: nat)
    requires VotesOk(s) && PositiveQuorum(env) && id in s.proposals && s.proposals[id].status == Vetoed
    ensures HasReachedQuorum(env, s.world, s.proposals[id], VotersOf(s, id)) != Reached
  {
    hide HasReachedQuorum;
    assert VotersOf(s, id) == {};
    NoVotesQuorum(env, s.world, s.proposals[id]);
  }

  lemma NextCheckCapped(at: Time, e: QuorumEntry, votingEnd: Time, now: Time)
    requires NextCheck(at, e, votingEnd, now).At?
    ensures NextCheck(at, e, votingEnd, now).time <= votingEnd
  {
    hide LegacyDec.TruncDiv;
  }

  /** What an effect of the quorum pass promises. */
  predicate EffectOk(s: Store, now: Time, k: QKey, eff: QuorumEffect)
    requires k in s.quorum && k.id in s.proposals && s.proposals[k.id].votingEnd.Some?
  {
    match eff
    case Removed => true
    case Extended => s.quorum[k].done > 0 && now + s.params.extension > s.proposals[k.id].votingEnd.value
    case Rescheduled(next) => now < next <= s.proposals[k.id].votingEnd.value && s.quorum[k].done < s.quorum[k].count
    case Crashed => s.proposals[k.id].votingEnd.value - s.quorum[k].timeout < s.quorum[k].count
  }

  /** A due check leads to a later time within the vote, or panics for want of a nanosecond a check. */
  lemma EffectIsOk(s: Store, env: Env, now: Time, k: QKey)
    requires QuorumQueue(s) && k in s.quorum && k.time <= now
    ensures EffectOk(s, now, k, EffectOf(s, env, now, k))
  {
    hide HasReachedQuorum, NextCheck;
    var e, p := s.quorum[k], s.proposals[k.id];
    if e.done < e.count && p.votingEnd.value > now {
      NextCheckPanicsIff(k.time, e, p.votingEnd.value, now);
      if e.count <= p.votingEnd.value - e.timeout {
        var _ := NextCheckIsFirstAfterNow(k.time, e, p.votingEnd.value, now);
        NextCheckCapped(k.time, e, p.votingEnd.value, now);
      }
    }
  }

  /** With a positive quorum, a vetoed proposal's end is never moved. */
  lemma ExtendsOnlyVoting(s: Store, env: Env, now: Time, k: QKey)
    requires QuorumQueue(s) && VotesOk(s) && PositiveQuorum(env) && k in s.quorum
    ensures EffectOf(s, env, now, k) == Extended ==> s.proposals[k.id].status == VotingPeriod
  {
    hide HasReachedQuorum, NextCheck;
    if s.proposals[k.id].status == Vetoed { VetoedNotReached(s, env, k.id); }
  }

  lemma EffectQueue(s: Store, now: Time, k: QKey, eff: QuorumEffect)
    requires QuorumQueue(s) && k in s.quorum && k.time <= now && EffectOk(s, now, k, eff)
    ensures QuorumQueue(ApplyEffect(s, now, k, eff))
  {
    assert forall x | x in s.quorum && x != k :: x.id != k.id;
    if eff == Extended {
      QuorumUntouched(s.(quorum := s.quorum - {k}), k.id, ApplyEffect(s, now, k, eff));
    }
  }

  lemma EffectRecords(s: Store, now: Time, k: QKey, eff: QuorumEffect)
    requires Records(s) && k in s.quorum && k.id in s.proposals && s.proposals[k.id].votingEnd.Some?
    ensures Records(ApplyEffect(s, now, k, eff))
  {
    hide Sum;
  }

  lemma EffectQueues(s: Store, now: Time, k: QKey, eff: QuorumEffect)
    requires Queues(s) && k in s.quorum && k.id in s.proposals && s.proposals[k.id].votingEnd.Some?
    requires eff == Extended ==> s.proposals[k.id].status == VotingPeriod
    ensures Queues(ApplyEffect(s, now, k, eff))
  {
    hide Queues, MoveEnd;
    var s1 := s.(quorum := s.quorum - {k});
    if eff == Extended {
      QueuesSame(s, s1);
      MoveEndQueues(s1, k.id, now + s.params.extension);
    } else {
      QueuesSame(s, ApplyEffect(s, now, k, eff));
    }
  }

  lemma QueuesSame(s: Store, s': Store)
    requires Queues(s)
    requires s'.proposals == s.proposals && s'.inactive == s.inactive && s'.active == s.active
    requires s'.nInactive == s.nInactive && s'.nActive == s.nActive && s'.nextId == s.nextId
    ensures Queues(s')
  {
    hide IndexesActive, IndexesInactive, AllTimes;
  }

  lemma EffectVotes(s: Store, now: Time, k: QKey, eff: QuorumEffect)
    requires VotesOk(s) && k in s.quorum && k.id in s.proposals && s.proposals[k.id].votingEnd.Some?
    ensures var s' := ApplyEffect(s, now, k, eff);
            && VotesOk(s') && s'.params == s.params
            && s'.halted == (s.halted || eff == Crashed)
  {
  }

  lemma QuorumStepInv(s: Store, env: Env, now: Time, k: QKey)
    requires Inv(s) && PositiveQuorum(env) && k in s.quorum && k.time <= now
    ensures Inv(QuorumStep(s, env, now, k))
  {
    EntryHasEnd(s, k);
    EffectIsOk(s, env, now, k);
    ExtendsOnlyVoting(s, env, now, k);
    hide EffectOf, Queues, QuorumQueue, Records, VotesOk, ApplyEffect, ParamsOk, PositiveQuorum;
    var eff := EffectOf(s, env, now, k);
    EffectQueues(s, now, k, eff);
    EffectQueue(s, now, k, eff);
    EffectRecords(s, now, k, eff);
    EffectVotes(s, now, k, eff);
  }

  lemma EntryHasEnd(s: Store, k: QKey)
    requires QuorumQueue(s) && k in s.quorum
    ensures k.id in s.proposals && s.proposals[k.id].votingEnd.Some?
  {
  }

  // ---------------------------------------------------------------- tally

  predicate Closed(st: Status) {
    st == Passed || st == Rejected || st == Failed
  }

  lemma VerdictCloses(env: Env, w: World, p: Proposal, o: TallyOutcome)
    ensures Closed(Verdict(env, w, p, o).0)
  {
    hide RunMessages;
  }

  lemma TalliedVotesKeep(votes: map<DKey, Vote>, id: nat, err: Option<set<Address>>)
    ensures var vs := TalliedVotes(votes, id, err);
            && vs.Keys <= votes.Keys
            && forall d | d in votes && d.id != id :: d in vs && vs[d] == votes[d]
  {
  }

  /** What an active step leaves of the store, apart from the world and the outcome. */
  lemma ActiveStepShape(s: Store, env: Env, k: QKey)
    requires Inv(s) && k in s.active
    ensures var s', p := ActiveStep(s, env, k.id), s.proposals[k.id];
            && s' == s.(proposals := s.proposals[k.id := p.(status := s'.proposals[k.id].status, tally := s'.proposals[k.id].tally)],
                        active := s.active - {k}, nActive := s.nActive - 1,
                        votes := s'.votes, deposits := Without(s.deposits, k.id),
                        world := s'.world, halted := s.halted || Short(s, k.id))
            && Closed(s'.proposals[k.id].status)
            && s'.votes.Keys <= s.votes.Keys
            && (forall d | d in s.votes && d.id != k.id :: d in s'.votes && s'.votes[d] == s.votes[d])
  {
    hide SettleDeposits, Sum, Verdict, TalliedVotes, VotesOf, Without, OfProposal, Inv;
    VotingAt(s, k);
    var p := s.proposals[k.id];
    assert k == QKey(k.time, k.id);
    ActiveCounted(s, k);
    var o := env.tally(s.world, p, VotesOf(s, k.id));
    var s0 := s.(votes := TalliedVotes(s.votes, k.id, o.err));
    TalliedVotesKeep(s.votes, k.id, o.err);
    SettleShape(s0, k.id, o.burn);
    VerdictCloses(env, SettleDeposits(s0, k.id, o.burn).world, p, o);
    ActiveStepIs(s, env, k.id);
    hide ActiveStep;
  }

  lemma ActiveCounted(s: Store, k: QKey)
    requires Inv(s) && k in s.active
    ensures s.nActive > 0
  {
  }

  /** ActiveStep with its intermediate results named. */
  lemma ActiveStepIs(s: Store, env: Env, id: nat)
    requires id in s.proposals && s.proposals[id].votingEnd.Some?
    ensures var p := s.proposals[id];
            var o := env.tally(s.world, p, VotesOf(s, id));
            var s1 := SettleDeposits(s.(votes := TalliedVotes(s.votes, id, o.err)), id, o.burn);
            var v := Verdict(env, s1.world, p, o);
            var p' := p.(status := v.0, tally := o.result);
            ActiveStep(s, env, id) ==
            HaltIf(s1.(proposals := s1.proposals[id := p'], active := s1.active - {QKey(p.votingEnd.value, id)},
                       nActive := Pred(s1.nActive), world := env.afterTally(v.1, p', o)), s1.nActive == 0)
  {
    hide SettleDeposits, Verdict, TalliedVotes, VotesOf;
  }

  lemma ActiveStepInv(s: Store, env: Env, k: QKey)
    requires Inv(s) && k in s.active
    requires forall x | x in s.quorum :: x.id != k.id
    ensures Inv(ActiveStep(s, env, k.id))
    ensures ActiveStep(s, env, k.id).active == s.active - {k}
  {
    VotingAt(s, k);
    ActiveStepShape(s, env, k);
    hide ActiveStep, Sum, Without, OfProposal, AllTimes, Records, QuorumQueue, VotesOk, IndexesActive, IndexesInactive;
    var s' := ActiveStep(s, env, k.id);
    var p' := s'.proposals[k.id];
    assert k == QKey(k.time, k.id);
    ClosedRecords(s, k.id, s');
    ActiveLeaves(s.active, s.proposals, k.id, p');
    InactiveUntouched(s.inactive, s.proposals, k.id, p');
    QuorumUntouched(s, k.id, s');
    VotesUntouched(s, k.id, s');
    KnownId(s, k.id);
    TimesUpdate(s.proposals, s.nextId, k.id, p');
  }

  lemma KnownId(s: Store, id: nat)
    requires Queues(s) && id in s.proposals
    ensures id < s.nextId && Times(s.proposals[id])
  {
  }
}
