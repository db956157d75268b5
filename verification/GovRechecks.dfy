/**
 Quorum checks from the first to the last.  What one due check does to its entry and to the end
 of the vote, case by case; the same for a block; and over runs: while quorum is not reached the
 entry stays as long as it has checks left, and a quorum that is reached late moves the end.
 */
module GovRechecks {
  import opened Options
  import opened GovTypes
  import opened CoinSums
  import opened GovQueue
  import opened GovStore
  import opened GovEndBlock
  import opened GovInvariants
  import opened GovBlock
  import opened GovScan
  import opened GovFate
  import opened GovChecks
  import opened GovTx
  import opened CoreDaos
  import opened GovSteps
  import opened GovRuns
  import opened GovHistory
  import opened GovCheckCounts

  // ---------------------------------------------------------------- one check

  /** The voters whose power a check counts are those with a stored vote. */
  lemma VotersAreStored(s: Store, id: nat, who: Address)
    ensures who in VotersOf(s, id) <==> DKey(id, who) in s.votes
  {
    VotesAreStored(s, id, who);
  }

  /** next is the j-th point of the grid at + j*t, the first one after now, or the end of the vote if that is earlier. */
  predicate IsNext(next: Time, at: Time, t: Duration, j: nat, end: Time, now: Time) {
    && j >= 1 && at + j * t > now && (forall i: nat | 1 <= i < j :: at + i * t <= now)
    && next == if at + j * t > end then end else at + j * t
  }

  /** The entry has checks left, its vote goes on, and its period has a nanosecond for each of its checks. */
  predicate Repeatable(e: QuorumEntry, end: Time, now: Time) {
    e.done < e.count && now < end && e.count <= end - e.timeout
  }

  /** The branch that puts the entry back. */
  lemma RepeatShape(s: Store, env: Env, now: Time, k: QKey, next: Time)
    requires k in s.quorum && k.id in s.proposals && s.proposals[k.id].votingEnd.Some?
    requires HasReachedQuorum(env, s.world, s.proposals[k.id], VotersOf(s, k.id)) == NotReached
    requires s.quorum[k].done < s.quorum[k].count && now < s.proposals[k.id].votingEnd.value
    requires NextCheck(k.time, s.quorum[k], s.proposals[k.id].votingEnd.value, now) == At(next)
    ensures var e := s.quorum[k];
            QuorumStep(s, env, now, k) ==
            s.(quorum := s.quorum - {k} + map[QKey(next, k.id) := QuorumEntry(e.timeout, e.count, e.done + 1)])
  {
    hide HasReachedQuorum, VotersOf, NextCheck;
  }

  lemma OnlyNext(s: Store, k: QKey, x: QKey, e: QuorumEntry)
    requires QuorumQueue(s) && k in s.quorum && x.id == k.id
    ensures forall y | y in s.quorum - {k} + map[x := e] && y.id == k.id :: y == x
  {
    OneEntry(s, k);
  }

  /** The facts of the next check time that need the invariants. */
  lemma NextOfEntry(s: Store, now: Time, k: QKey) returns (next: Time, j: nat)
    requires Inv(s) && k in s.quorum && k.time <= now && EntryHasProposal(s, k)
    requires Repeatable(s.quorum[k], s.proposals[k.id].votingEnd.value, now)
    ensures var e, end := s.quorum[k], s.proposals[k.id].votingEnd.value;
            && IsNext(next, k.time, (end - e.timeout) / e.count, j, end, now) && now < next <= end
            && NextCheck(k.time, e, end, now) == At(next)
  {
    assert EntryOk(k.time, s.quorum[k], s.proposals[k.id]);
    hide Inv, NextCheck;
    var e, end := s.quorum[k], s.proposals[k.id].votingEnd.value;
    j := NextCheckIsFirstAfterNow(k.time, e, end, now);
    next := NextCheck(k.time, e, end, now).time;
  }

  /**
   A due check that does not find a quorum puts the entry back: it becomes the proposal's one
   entry at the next check time, counts one check more, and nothing else in the store changes.
   */
  lemma FailedCheckIsRepeated(s: Store, env: Env, now: Time, k: QKey) returns (next: Time, j: nat)
    requires Inv(s) && k in s.quorum && k.time <= now && EntryHasProposal(s, k)
    requires HasReachedQuorum(env, s.world, s.proposals[k.id], VotersOf(s, k.id)) == NotReached
    requires Repeatable(s.quorum[k], s.proposals[k.id].votingEnd.value, now)
    ensures var e, end, s' := s.quorum[k], s.proposals[k.id].votingEnd.value, QuorumStep(s, env, now, k);
            && IsNext(next, k.time, (end - e.timeout) / e.count, j, end, now) && now < next <= end
            && s' == s.(quorum := s.quorum - {k} + map[QKey(next, k.id) := QuorumEntry(e.timeout, e.count, e.done + 1)])
            && forall x | x in s'.quorum && x.id == k.id :: x == QKey(next, k.id)
  {
    next, j := NextOfEntry(s, now, k);
    hide IsNext, NextCheck, HasReachedQuorum, VotersOf, QuorumStep;
    RepeatShape(s, env, now, k, next);
    var e := s.quorum[k];
    OnlyNext(s, k, QKey(next, k.id), QuorumEntry(e.timeout, e.count, e.done + 1));
    hide Inv;
  }

  /** A due check that finds a quorum, and is not the first, ends the checks and moves the end of the vote, if that is later. */
  lemma LateQuorumMovesEnd(s: Store, env: Env, now: Time, k: QKey)
    requires Inv(s) && k in s.quorum && k.time <= now && EntryHasProposal(s, k)
    requires HasReachedQuorum(env, s.world, s.proposals[k.id], VotersOf(s, k.id)) == Reached && s.quorum[k].done > 0
    ensures var p, end := s.proposals[k.id], now + s.params.extension;
            QuorumStep(s, env, now, k) ==
            if end <= p.votingEnd.value then s.(quorum := s.quorum - {k})
            else s.(quorum := s.quorum - {k},
                    active := s.active - {QKey(p.votingEnd.value, k.id)} + {QKey(end, k.id)},
                    proposals := s.proposals[k.id := p.(votingEnd := Some(end))])
  {
    hide Inv, HasReachedQuorum, VotersOf, NextCheck;
  }

  /** Every other check that does not panic ends the checks and does nothing else: an error, a quorum at the first one, the last one, or one after the vote. */
  lemma OtherChecksEnd(s: Store, env: Env, now: Time, k: QKey)
    requires Inv(s) && k in s.quorum && k.time <= now && EntryHasProposal(s, k)
    requires var r, e := HasReachedQuorum(env, s.world, s.proposals[k.id], VotersOf(s, k.id)), s.quorum[k];
             || r == QuorumError
             || (r == Reached && e.done == 0)
             || (r == NotReached && (e.done >= e.count || s.proposals[k.id].votingEnd.value <= now))
    ensures QuorumStep(s, env, now, k) == s.(quorum := s.quorum - {k})
  {
    hide Inv, HasReachedQuorum, VotersOf, NextCheck;
  }

  // ---------------------------------------------------------------- one block

  /** What a check of the proposal finds in this block: the pass over the inactive queue comes first, and may pay out deposits. */
  ghost function CheckOf(s: Store, env: Env, now: Time, id: nat): QuorumCheck
    requires id in s.proposals
  {
    HasReachedQuorum(env, AfterInactive(s, env, now).world, s.proposals[id], VotersOf(s, id))
  }

  lemma SameBefore(s: Store, s1: Store, k: QKey)
    requires LocalOf(s1, k.id) == LocalOf(s, k.id)
    ensures VotersOf(s1, k.id) == VotersOf(s, k.id)
    ensures k in s.quorum ==> k in s1.quorum && s1.quorum[k] == s.quorum[k]
    ensures k.id in s.proposals ==> k.id in s1.proposals && s1.proposals[k.id] == s.proposals[k.id]
  {
    EntryLocal(s, s1, k);
    VotersLocal(s, s1, k.id);
    hide EntriesOf, VotersOf, OfProposal;
    assert ProposalOf(s1.proposals, k.id) == ProposalOf(s.proposals, k.id);
  }

  /** The quorum pass does to the proposal of a due entry what the step does. */
  lemma PassAt(s: Store, env: Env, now: Time, k: QKey)
    requires Inv(s) && k in s.quorum && k.time <= now
    ensures EntryHasProposal(s, k) && LocalOf(AfterQuorum(s, env, now), k.id) == LocalOf(QuorumStep(s, env, now, k), k.id)
  {
    hide QuorumPass, EffectOf, ApplyEffect, LocalOf, Sorted, Due, DistinctIds, Inv;
    DueQuorum(s, now);
    QueueOf(s);
    EntryHasEnd(s, k);
    QuorumPassAt(s, env, now, DueKeys(s.quorum.Keys, now), k);
  }

  /** The store the quorum pass starts from, as far as the proposal is concerned, and what the pass does to it. */
  lemma PassDoesStep(s: Store, env: Env, now: Time, k: QKey)
    requires Inv(s) && PositiveQuorum(env) && IsVoting(s, k.id) && k in s.quorum && k.time <= now
    ensures var s1 := AfterInactive(s, env, now);
            && Inv(s1) && k in s1.quorum && s1.quorum[k] == s.quorum[k]
            && EntryHasProposal(s1, k) && s1.proposals[k.id] == s.proposals[k.id] && s1.params == s.params
            && CheckOf(s, env, now, k.id) == HasReachedQuorum(env, s1.world, s1.proposals[k.id], VotersOf(s1, k.id))
            && LocalOf(AfterQuorum(s1, env, now), k.id) == LocalOf(QuorumStep(s1, env, now, k), k.id)
  {
    var s1 := AfterInactive(s, env, now);
    hide AfterInactive, AfterQuorum, HasReachedQuorum, QuorumStep, LocalOf, VotersOf, Inv;
    NotDueInactive(s, env, now, k.id);
    AfterInactiveInv(s, env, now);
    SameBefore(s, s1, k);
    PassAt(s1, env, now, k);
  }

  /** The rest of the block closes the proposal if its end has come, and leaves it and its entries alone otherwise. */
  lemma RestOfBlock(s: Store, env: Env, now: Time, id: nat, p: Proposal)
    requires Inv(s) && PositiveQuorum(env) && IsVoting(s, id) && p.status == VotingPeriod && p.votingEnd.Some?
    requires LocalOf(AfterQuorum(AfterInactive(s, env, now), env, now), id).proposal == Some(p)
    ensures var l, l2 := LocalOf(EndBlock(s, env, now), id), LocalOf(AfterQuorum(AfterInactive(s, env, now), env, now), id);
            && l.entries == l2.entries
            && if p.votingEnd.value <= now then ClosedFrom(l, p) else l.proposal == Some(p)
  {
    EndBlockEntries(s, env, now, id);
    hide Inv, AfterInactive, AfterQuorum, AfterActive, OfProposal, EntriesOf, PositiveQuorum, ClosedFrom;
    var s1 := AfterInactive(s, env, now);
    AfterInactiveInv(s, env, now);
    AfterQuorumInv(s1, env, now);
    var s2 := AfterQuorum(s1, env, now);
    assert ProposalOf(s2.proposals, id) == Some(p);
    if p.votingEnd.value <= now { DueActiveCloses(s2, env, now, id); } else { NotDueActive(s2, env, now, id); }
  }

  /** Without a due check the quorum pass leaves the proposal alone. */
  lemma PassWithoutCheck(s: Store, env: Env, now: Time, id: nat)
    requires !CheckDue(s, now, id)
    ensures LocalOf(AfterQuorum(s, env, now), id) == LocalOf(s, id)
  {
    hide QuorumPass, LocalOf, Sorted;
    forall x | x in DueKeys(s.quorum.Keys, now) ensures x.id != id {
      assert x in s.quorum && x.time <= now;
    }
    QuorumPassFrame(s, env, now, DueKeys(s.quorum.Keys, now), id);
  }

  lemma OnlyEntry(s: Store, now: Time, k: QKey)
    requires QuorumQueue(s) && k in s.quorum
    ensures CheckDue(s, now, k.id) <==> k.time <= now
  {
    OneEntry(s, k);
  }

  /** The proposal and its entry before the quorum pass are those before the block. */
  lemma BeforeChecks(s: Store, env: Env, now: Time, id: nat)
    requires Inv(s) && IsVoting(s, id)
    ensures var s1 := AfterInactive(s, env, now);
            && LocalOf(s1, id) == LocalOf(s, id) && (CheckDue(s1, now, id) <==> CheckDue(s, now, id))
  {
    NotDueInactive(s, env, now, id);
    hide AfterInactive, EntriesOf, OfProposal, Inv, CheckDue;
    CheckDueLocal(s, AfterInactive(s, env, now), now, id);
  }

  /** Without a due check a voting proposal keeps its entries through the block; it is closed if its end has come, and stays as it is otherwise. */
  lemma BlockWithoutCheck(s: Store, env: Env, now: Time, id: nat)
    requires Inv(s) && PositiveQuorum(env) && IsVoting(s, id) && !CheckDue(s, now, id)
    ensures var p, l := s.proposals[id], LocalOf(EndBlock(s, env, now), id);
            && p.votingEnd.Some? && l.entries == EntriesOf(s.quorum, id)
            && if p.votingEnd.value <= now then ClosedFrom(l, p) else l.proposal == Some(p)
  {
    VotingAtId(s, id);
    hide Inv, AfterInactive, AfterQuorum, EndBlock, OfProposal, EntriesOf, CheckDue, ClosedFrom, PositiveQuorum;
    BeforeChecks(s, env, now, id);
    PassWithoutCheck(AfterInactive(s, env, now), env, now, id);
    RestOfBlock(s, env, now, id, s.proposals[id]);
  }

  lemma QueueOf(s: Store)
    requires Inv(s)
    ensures QuorumQueue(s)
  {
  }

  lemma EntriesReplaced(s: Store, k: QKey, next: Time, e: QuorumEntry)
    requires QuorumQueue(s) && k in s.quorum
    ensures EntriesOf(s.quorum - {k}, k.id) == map[]
    ensures EntriesOf(s.quorum - {k} + map[QKey(next, k.id) := e], k.id) == map[QKey(next, k.id) := e]
  {
    EntriesAreOne(s, k);
    EntriesMinus(s.quorum, k);
    EntriesPlus(s.quorum - {k}, QKey(next, k.id), e);
    hide EntriesOf, QuorumQueue;
    assert s.quorum - {k} + map[QKey(next, k.id) := e] == (s.quorum - {k})[QKey(next, k.id) := e];
  }

  /**
   A block in which a check of a voting proposal is due and finds no quorum, with checks left,
   leaves the proposal as it is and gives it its next check, at the first point of its grid
   after the block or at the end of the vote.
   */
  lemma BlockRepeatsCheck(s: Store, env: Env, now: Time, k: QKey) returns (next: Time, j: nat)
    requires Inv(s) && PositiveQuorum(env) && IsVoting(s, k.id) && k in s.quorum && k.time <= now
    requires s.proposals[k.id].votingEnd.Some? && Repeatable(s.quorum[k], s.proposals[k.id].votingEnd.value, now)
    requires CheckOf(s, env, now, k.id) == NotReached
    ensures var e, p, l := s.quorum[k], s.proposals[k.id], LocalOf(EndBlock(s, env, now), k.id);
            && IsNext(next, k.time, (p.votingEnd.value - e.timeout) / e.count, j, p.votingEnd.value, now)
            && now < next <= p.votingEnd.value
            && l.proposal == Some(p)
            && l.entries == map[QKey(next, k.id) := QuorumEntry(e.timeout, e.count, e.done + 1)]
  {
    hide IsNext, Inv, AfterInactive, AfterQuorum, QuorumStep, EndBlock, OfProposal, EntriesOf, CheckOf, ClosedFrom, PositiveQuorum, HasReachedQuorum, VotersOf;
    PassDoesStep(s, env, now, k);
    var s1 := AfterInactive(s, env, now);
    next, j := FailedCheckIsRepeated(s1, env, now, k);
    var e := s.quorum[k];
    QueueOf(s1);
    EntriesReplaced(s1, k, next, QuorumEntry(e.timeout, e.count, e.done + 1));
    RestOfBlock(s, env, now, k.id, s.proposals[k.id]);
  }

  /** The end of a vote after a late quorum. */
  function LateEnd(end: Time, now: Time, extension: Duration): Time {
    if end < now + extension then now + extension else end
  }

  /**
   A block in which a check of a voting proposal finds a quorum, and is not its first, ends the
   checks and moves the end of the vote to now plus the extension, if that is later.
   */
  lemma BlockLateQuorum(s: Store, env: Env, now: Time, k: QKey)
    requires Inv(s) && PositiveQuorum(env) && IsVoting(s, k.id) && k in s.quorum && k.time <= now
    requires CheckOf(s, env, now, k.id) == Reached && s.quorum[k].done > 0
    ensures var p, l := s.proposals[k.id], LocalOf(EndBlock(s, env, now), k.id);
            && p.votingEnd.Some? && l.entries == map[]
            && var end := LateEnd(p.votingEnd.value, now, s.params.extension);
            && if end <= now then ClosedFrom(l, p.(votingEnd := Some(end))) else l.proposal == Some(p.(votingEnd := Some(end)))
  {
    hide Inv, AfterInactive, AfterQuorum, QuorumStep, EndBlock, OfProposal, EntriesOf, CheckOf, ClosedFrom, PositiveQuorum, HasReachedQuorum, VotersOf;
    VotingAtId(s, k.id);
    PassDoesStep(s, env, now, k);
    var s1 := AfterInactive(s, env, now);
    LateQuorumMovesEnd(s1, env, now, k);
    QueueOf(s1);
    EntriesReplaced(s1, k, 0, s.quorum[k]);
    var p := s.proposals[k.id];
    RestOfBlock(s, env, now, k.id, p.(votingEnd := Some(LateEnd(p.votingEnd.value, now, s.params.extension))));
  }

  /** A block in which the check of a voting proposal fails with an error, finds a quorum at once, or is the last, ends its checks and leaves its end alone. */
  lemma BlockEndsChecks(s: Store, env: Env, now: Time, k: QKey)
    requires Inv(s) && PositiveQuorum(env) && IsVoting(s, k.id) && k in s.quorum && k.time <= now && s.proposals[k.id].votingEnd.Some?
    requires var r, e := CheckOf(s, env, now, k.id), s.quorum[k];
             || r == QuorumError
             || (r == Reached && e.done == 0)
             || (r == NotReached && (e.done >= e.count || s.proposals[k.id].votingEnd.value <= now))
    ensures var p, l := s.proposals[k.id], LocalOf(EndBlock(s, env, now), k.id);
            && l.entries == map[]
            && if p.votingEnd.value <= now then ClosedFrom(l, p) else l.proposal == Some(p)
  {
    hide Inv, AfterInactive, AfterQuorum, QuorumStep, EndBlock, OfProposal, EntriesOf, CheckOf, ClosedFrom, PositiveQuorum, HasReachedQuorum, VotersOf;
    PassDoesStep(s, env, now, k);
    var s1 := AfterInactive(s, env, now);
    OtherChecksEnd(s1, env, now, k);
    QueueOf(s1);
    EntriesReplaced(s1, k, 0, s.quorum[k]);
    RestOfBlock(s, env, now, k.id, s.proposals[k.id]);
  }

  /**
   With a quorum timeout of zero the first check of a proposal comes in the block that starts
   its vote.  Nobody has voted, so it ends the checks if the quorum cannot be computed, and
   otherwise puts the entry back as after any failed check.
   */
  lemma FirstCheckAtOnce(s: Store, env: Env, now: Time, id: nat) returns (next: Time, j: nat)
    requires Inv(s) && PositiveQuorum(env) && id in s.proposals && s.proposals[id].status == DepositPeriod
    requires s.proposals[id].depositEnd <= now && MeetsAtTurn(s, env, now, id)
    requires s.params.quorumTimeout == 0 && 0 < s.params.checkCount <= s.params.votingPeriod
    ensures var g, m := s.params, LocalOf(EndBlock(s, env, now), id).entries;
            var p := s.proposals[id].(status := VotingPeriod, votingStart := Some(now), votingEnd := Some(now + g.votingPeriod));
            if HasReachedQuorum(env, AfterInactive(s, env, now).world, p, {}) == QuorumError then m == map[]
            else && IsNext(next, now, g.votingPeriod / g.checkCount, j, now + g.votingPeriod, now)
                 && m == map[QKey(next, id) := QuorumEntry(now, g.checkCount, 1)]
  {
    hide Inv, PositiveQuorum, AfterInactive, AfterQuorum, EndBlock, OfProposal, LocalOf, HasReachedQuorum, MeetsAtTurn, IsNext;
    hide QuorumStep, EntriesOf, VotersOf;
    var g, s1, k := s.params, AfterInactive(s, env, now), QKey(now, id);
    DepositAfterInactive(s, env, now, id);
    AfterInactiveInv(s, env, now);
    StartedHere(s1, s.proposals[id], id, now, g, OfProposal(s.deposits, id));
    var e, p := QuorumEntry(now, g.checkCount, 0), s1.proposals[id];
    OneEntryAt(s1, k, e);
    EntriesAfterActive(s, env, now, id);
    PassAt(s1, env, now, k);
    QueueOf(s1);
    NoVotes(env, s1.world, p);
    next, j := now, 0;
    if HasReachedQuorum(env, s1.world, p, {}) == QuorumError {
      OtherChecksEnd(s1, env, now, k);
      EntriesReplaced(s1, k, 0, e);
    } else {
      next, j := FailedCheckIsRepeated(s1, env, now, k);
      EntriesReplaced(s1, k, next, QuorumEntry(now, g.checkCount, 1));
    }
    LocalEntries(QuorumStep(s1, env, now, k), id);
    LocalEntries(AfterQuorum(s1, env, now), id);
  }

  lemma LocalEntries(s: Store, id: nat)
    ensures LocalOf(s, id).entries == EntriesOf(s.quorum, id)
  {
    hide EntriesOf, OfProposal;
  }

  lemma NoVotes(env: Env, w: World, p: Proposal)
    requires PositiveQuorum(env)
    ensures HasReachedQuorum(env, w, p, {}) != Reached
  {
    NoVotesQuorum(env, w, p);
    hide HasReachedQuorum;
  }

  lemma StartedHere(s: Store, p: Proposal, id: nat, now: Time, g: GovParams, deposits: map<DKey, Coins>)
    requires LocalOf(s, id) == Activated(p, id, now, g, deposits) && g.quorumTimeout == 0 && g.checkCount > 0
    ensures id in s.proposals && VotersOf(s, id) == {}
    ensures s.proposals[id] == p.(status := VotingPeriod, votingStart := Some(now), votingEnd := Some(now + g.votingPeriod))
    ensures EntriesOf(s.quorum, id) == map[QKey(now, id) := QuorumEntry(now, g.checkCount, 0)]
  {
    assert ProposalOf(s.proposals, id) == LocalOf(s, id).proposal;
    hide EntriesOf;
    assert OfProposal(s.votes, id) == map[];
    forall a ensures a !in VotersOf(s, id) {
      VotersAreStored(s, id, a);
      assert DKey(id, a) in s.votes ==> DKey(id, a) in OfProposal(s.votes, id);
    }
  }

  /** The active pass leaves the entries that the quorum pass left. */
  lemma EntriesAfterActive(s: Store, env: Env, now: Time, id: nat)
    requires Inv(s) && PositiveQuorum(env)
    ensures LocalOf(EndBlock(s, env, now), id).entries == LocalOf(AfterQuorum(AfterInactive(s, env, now), env, now), id).entries
  {
    hide Inv, PositiveQuorum, AfterInactive, AfterQuorum, AfterActive, OfProposal, EntriesOf;
    var s1 := AfterInactive(s, env, now);
    AfterInactiveInv(s, env, now);
    AfterQuorumInv(s1, env, now);
    AfterActiveInv(AfterQuorum(s1, env, now), env, now);
  }

  // ---------------------------------------------------------------- runs

  /** No check of the voting proposal in this run finds a quorum, or an error. */
  ghost predicate NeverReached(s: Store, env: Env, bs: seq<Block>, id: nat)
    decreases |bs|
  {
    bs == [] ||
    (&& NotReachedIn(ApplyAll(s, env, bs[0].time, bs[0].txs), env, bs[0].time, id)
     && NeverReached(Step(s, env, bs[0]), env, bs[1..], id))
  }

  ghost predicate NotReachedIn(s: Store, env: Env, now: Time, id: nat) {
    IsVoting(s, id) && CheckDue(s, now, id) ==> CheckOf(s, env, now, id) == NotReached
  }

  /** After n more checks: the same entry at some time, if it had a check left for each of them, and none otherwise. */
  ghost predicate StillChecked(m: map<QKey, QuorumEntry>, e: QuorumEntry, n: nat) {
    if e.done + n <= e.count then |m| == 1 && forall x | x in m :: m[x] == QuorumEntry(e.timeout, e.count, e.done + n)
    else m == map[]
  }

  /** The entry of a voting proposal, whose period has a nanosecond for each check. */
  ghost predicate EntryAt(s: Store, k: QKey, e: QuorumEntry) {
    && IsVoting(s, k.id) && k in s.quorum && s.quorum[k] == e
    && s.proposals[k.id].votingEnd.Some? && e.count <= s.proposals[k.id].votingEnd.value - e.timeout
  }

  lemma EntryStays(s: Store, s1: Store, k: QKey, e: QuorumEntry)
    requires EntryAt(s, k, e) && Forward(s, s1, k.id) && EntriesOf(s1.quorum, k.id) == EntriesOf(s.quorum, k.id)
    ensures IsVoting(s1, k.id) ==> EntryAt(s1, k, e)
  {
    EntryLocal(s, s1, k);
  }

  lemma OneEntryAt(s: Store, k: QKey, e: QuorumEntry)
    requires EntriesOf(s.quorum, k.id) == map[k := e]
    ensures k in s.quorum && s.quorum[k] == e
  {
    assert k in EntriesOf(s.quorum, k.id);
  }

  lemma LocalVoting(s: Store, id: nat, p: Proposal)
    ensures LocalOf(s, id).proposal == Some(p) ==> id in s.proposals && s.proposals[id] == p
    ensures ClosedFrom(LocalOf(s, id), p) ==> !IsVoting(s, id)
    ensures LocalOf(s, id).entries == EntriesOf(s.quorum, id)
  {
    hide EntriesOf, OfProposal;
    assert ProposalOf(s.proposals, id) == LocalOf(s, id).proposal;
  }

  /** What the entry becomes: it waits, it is put back, or it is gone. */
  ghost predicate NextEntry(s': Store, k: QKey, k': QKey, e: QuorumEntry, n: nat) {
    k'.id == k.id &&
    (IsVoting(s', k.id) ==>
       if e.done + n <= e.count then EntryAt(s', k', e.(done := e.done + n)) else EntriesOf(s'.quorum, k.id) == map[])
  }

  lemma EntryWaits(s: Store, env: Env, now: Time, k: QKey, e: QuorumEntry)
    requires Inv(s) && PositiveQuorum(env) && EntryAt(s, k, e) && !CheckDue(s, now, k.id) && e.done <= e.count
    requires EntriesOf(s.quorum, k.id) == map[k := e]
    ensures NextEntry(EndBlock(s, env, now), k, k, e, 0)
  {
    hide Inv, EndBlock, LocalOf, EntriesOf, PositiveQuorum, CheckDue, ClosedFrom;
    var s', p := EndBlock(s, env, now), s.proposals[k.id];
    BlockWithoutCheck(s, env, now, k.id);
    LocalVoting(s', k.id, p);
    if p.votingEnd.value > now { OneEntryAt(s', k, e); }
  }

  lemma EntryRepeats(s: Store, env: Env, now: Time, k: QKey, e: QuorumEntry) returns (k': QKey)
    requires Inv(s) && PositiveQuorum(env) && EntryAt(s, k, e) && k.time <= now && CheckOf(s, env, now, k.id) == NotReached
    requires e.done < e.count && now < s.proposals[k.id].votingEnd.value
    ensures NextEntry(EndBlock(s, env, now), k, k', e, 1)
  {
    hide Inv, EndBlock, LocalOf, EntriesOf, PositiveQuorum, CheckOf, ClosedFrom, IsNext;
    var s', p := EndBlock(s, env, now), s.proposals[k.id];
    var next, j := BlockRepeatsCheck(s, env, now, k);
    k' := QKey(next, k.id);
    LocalVoting(s', k.id, p);
    OneEntryAt(s', k', e.(done := e.done + 1));
  }

  lemma EntryEnds(s: Store, env: Env, now: Time, k: QKey, e: QuorumEntry)
    requires Inv(s) && PositiveQuorum(env) && EntryAt(s, k, e) && k.time <= now && CheckOf(s, env, now, k.id) == NotReached
    requires e.done == e.count || s.proposals[k.id].votingEnd.value <= now
    ensures NextEntry(EndBlock(s, env, now), k, k, e, 1)
  {
    hide Inv, EndBlock, LocalOf, EntriesOf, PositiveQuorum, CheckOf, ClosedFrom;
    var s', p := EndBlock(s, env, now), s.proposals[k.id];
    BlockEndsChecks(s, env, now, k);
    LocalVoting(s', k.id, p);
  }

  /** One block without a quorum: either the vote is over, or the entry waits or has its next check, or the checks are used up. */
  lemma BlockNotReached(s: Store, env: Env, now: Time, k: QKey, e: QuorumEntry) returns (k': QKey)
    requires Inv(s) && PositiveQuorum(env) && EntryAt(s, k, e) && NotReachedIn(s, env, now, k.id)
    ensures NextEntry(EndBlock(s, env, now), k, k', e, One(Checks(s, env, now, k.id)))
  {
    OnlyEntry(s, now, k);
    EntriesAreOne(s, k);
    BeforeChecks(s, env, now, k.id);
    hide Inv, AfterInactive, EndBlock, LocalOf, EntriesOf, CheckOf, PositiveQuorum, CheckDue, NextEntry;
    k' := k;
    if k.time > now {
      EntryWaits(s, env, now, k, e);
    } else if e.done < e.count && now < s.proposals[k.id].votingEnd.value {
      k' := EntryRepeats(s, env, now, k, e);
    } else {
      EntryEnds(s, env, now, k, e);
    }
  }

  /** From the block on: a vote that is over stays over, and checks that are used up are not given back. */
  lemma NoMoreChecks(s: Store, env: Env, bs: seq<Block>, last: Time, id: nat)
    requires Good(s, last) && PositiveQuorum(env) && Timely(last, bs) && Started(s, id)
    ensures !IsVoting(s, id) ==> !IsVoting(Run(s, env, bs), id)
    ensures IsVoting(s, id) && EntriesOf(s.quorum, id) == map[] ==> EntriesOf(Run(s, env, bs).quorum, id) == map[]
  {
    RunStarted(s, env, bs, last, id);
    if IsVoting(s, id) && EntriesOf(s.quorum, id) == map[] {
      VotingAtId(s, id);
      hide Good, PositiveQuorum, Run, EntriesOf, Timely, Forward;
      OnlyDaosAfterLateQuorum(s, env, bs, last, id);
    }
  }

  lemma DoneSum(m: map<QKey, QuorumEntry>, e: QuorumEntry, a: nat, b: nat)
    requires StillChecked(m, e.(done := e.done + a), b)
    ensures StillChecked(m, e, a + b)
  {
  }

  lemma EntryStill(s: Store, env: Env, bs: seq<Block>, last: Time, k: QKey, e: QuorumEntry)
    requires bs == [] && Good(s, last) && EntryAt(s, k, e)
    ensures Run(s, env, bs) == s && StillChecked(EntriesOf(s.quorum, k.id), e, CountChecks(s, env, bs, k.id))
  {
    QueueOf(s);
    hide Inv, Clear, Checks, Step, ApplyAll;
    EntriesAreOne(s, k);
    hide EntriesOf;
  }

  /** The transactions of a block, and its end. */
  lemma StepNotReached(s: Store, env: Env, b: Block, last: Time, k: QKey, e: QuorumEntry) returns (k': QKey)
    requires Good(s, last) && PositiveQuorum(env) && last < b.time && EntryAt(s, k, e)
    requires NotReachedIn(ApplyAll(s, env, b.time, b.txs), env, b.time, k.id)
    ensures Started(Step(s, env, b), k.id)
    ensures NextEntry(Step(s, env, b), k, k', e, One(Checks(ApplyAll(s, env, b.time, b.txs), env, b.time, k.id)))
  {
    hide Inv, ApplyAll, EndBlock, DaoParamsOk, EntriesOf, PositiveQuorum, NotReachedIn, Checks, Forward;
    var s1 := ApplyAll(s, env, b.time, b.txs);
    ApplyAllInv(s, env, b.time, b.txs, last);
    ApplyAllStarted(s, env, b.time, b.txs, k.id);
    EntryStays(s, s1, k, e);
    StepStarted(s, env, b, last, k.id);
    ForwardStarted(s, Step(s, env, b), k.id);
    ForwardStarted(s, s1, k.id);
    k' := k;
    if IsVoting(s1, k.id) {
      k' := BlockNotReached(s1, env, b.time, k, e);
    } else {
      EndBlockStarted(s1, env, b.time, k.id);
      NotVotingAgain(s1, Step(s, env, b), k.id);
    }
  }

  lemma NotVotingAgain(s: Store, s': Store, id: nat)
    requires Forward(s, s', id) && !IsVoting(s, id)
    ensures !IsVoting(s', id)
  {
  }

  /**
   While no check finds a quorum, a voting proposal still has its entry as long as there are
   checks left: in every run from an entry with done checks made, after n more checks it holds
   the same entry with done + n, and none once that exceeds the count.
   */
  lemma {:induction false} EntryWhileNotReached(s: Store, env: Env, bs: seq<Block>, last: Time, k: QKey, e: QuorumEntry)
    requires Good(s, last) && PositiveQuorum(env) && Timely(last, bs) && EntryAt(s, k, e) && NeverReached(s, env, bs, k.id)
    ensures var r := Run(s, env, bs);
            IsVoting(r, k.id) ==> StillChecked(EntriesOf(r.quorum, k.id), e, CountChecks(s, env, bs, k.id))
    decreases |bs|
  {
    hide Good, PositiveQuorum, Timely, Run, CountChecks, EntriesOf, StillChecked, IsVoting, Started, NeverReached;
    hide Checks, Step, ApplyAll, EntryAt, NotReachedIn;
    if bs == [] {
      EntryStill(s, env, bs, last, k, e);
    } else {
      FirstBlock(s, env, bs, last, k.id);
      var b := bs[0];
      var n, s2 := One(Checks(ApplyAll(s, env, b.time, b.txs), env, b.time, k.id)), Step(s, env, b);
      var k' := StepNotReached(s, env, b, last, k, e);
      EntryNext(s2, k, k', e, n);
      StepGood(s, env, b, last);
      if IsVoting(s2, k.id) && e.done + n <= e.count {
        EntryWhileNotReached(s2, env, bs[1..], b.time, k', e.(done := e.done + n));
      }
      EntryJoins(s2, env, bs[1..], b.time, k.id, e, n);
    }
  }

  lemma EntryJoins(s: Store, env: Env, bs: seq<Block>, last: Time, id: nat, e: QuorumEntry, n: nat)
    requires Good(s, last) && PositiveQuorum(env) && Timely(last, bs) && Started(s, id)
    requires var m, n' := EntriesOf(Run(s, env, bs).quorum, id), CountChecks(s, env, bs, id);
             if e.done + n <= e.count then IsVoting(s, id) && IsVoting(Run(s, env, bs), id) ==> StillChecked(m, e.(done := e.done + n), n')
             else IsVoting(s, id) ==> EntriesOf(s.quorum, id) == map[]
    ensures IsVoting(Run(s, env, bs), id) ==> StillChecked(EntriesOf(Run(s, env, bs).quorum, id), e, n + CountChecks(s, env, bs, id))
  {
    hide Good, PositiveQuorum, Timely, Run, CountChecks, EntriesOf, StillChecked, IsVoting, Started;
    NoMoreChecks(s, env, bs, last, id);
    var m, n' := EntriesOf(Run(s, env, bs).quorum, id), CountChecks(s, env, bs, id);
    if IsVoting(Run(s, env, bs), id) {
      if e.done + n <= e.count { DoneSum(m, e, n, n'); } else { NoneLeft(e, n + n'); }
    }
  }

  lemma FirstBlock(s: Store, env: Env, bs: seq<Block>, last: Time, id: nat)
    requires bs != [] && Timely(last, bs) && NeverReached(s, env, bs, id)
    ensures var b, s1, s2 := bs[0], ApplyAll(s, env, bs[0].time, bs[0].txs), Step(s, env, bs[0]);
            && last < b.time && Timely(b.time, bs[1..]) && NotReachedIn(s1, env, b.time, id) && NeverReached(s2, env, bs[1..], id)
            && Run(s, env, bs) == Run(s2, env, bs[1..])
            && CountChecks(s, env, bs, id) == One(Checks(s1, env, b.time, id)) + CountChecks(s2, env, bs[1..], id)
  {
    hide NotReachedIn, Checks, Step, ApplyAll;
  }

  lemma EntryNext(s: Store, k: QKey, k': QKey, e: QuorumEntry, n: nat)
    requires NextEntry(s, k, k', e, n)
    ensures k'.id == k.id
    ensures IsVoting(s, k.id) && e.done + n <= e.count ==> EntryAt(s, k', e.(done := e.done + n))
    ensures IsVoting(s, k.id) && e.done + n > e.count ==> EntriesOf(s.quorum, k.id) == map[]
  {
    hide EntryAt, EntriesOf;
  }

  lemma NoneLeft(e: QuorumEntry, n: nat)
    requires e.done + n > e.count
    ensures StillChecked(map[], e, n)
  {
  }

  /**
   The first check of a voting proposal that finds a quorum after others did not, in any run,
   moves its end to now plus the extension in force, if that is later, and ends its checks; a
   quorum at the first check ends them and leaves the end alone.
   */
  lemma LateQuorumExtends(s: Store, env: Env, bs: seq<Block>, last: Time, k: QKey, e: QuorumEntry, b: Block)
    requires Good(s, last) && PositiveQuorum(env) && Timely(last, bs) && LastTime(last, bs) < b.time
    requires EntryAt(s, k, e) && NeverReached(s, env, bs, k.id)
    requires var r1 := ApplyAll(Run(s, env, bs), env, b.time, b.txs);
             IsVoting(r1, k.id) && CheckDue(r1, b.time, k.id) && CheckOf(r1, env, b.time, k.id) == Reached
    ensures var r1, l := ApplyAll(Run(s, env, bs), env, b.time, b.txs), LocalOf(Step(Run(s, env, bs), env, b), k.id);
            var p := r1.proposals[k.id];
            && p.votingEnd.Some? && l.entries == map[]
            && var end := if e.done + CountChecks(s, env, bs, k.id) > 0 then LateEnd(p.votingEnd.value, b.time, r1.params.extension)
                          else p.votingEnd.value;
            && if end <= b.time then ClosedFrom(l, p.(votingEnd := Some(end))) else l.proposal == Some(p.(votingEnd := Some(end)))
  {
    var r, r1, n := Run(s, env, bs), ApplyAll(Run(s, env, bs), env, b.time, b.txs), CountChecks(s, env, bs, k.id);
    assert Started(s, k.id);
    RunGood(s, env, bs, last);
    RunStarted(s, env, bs, last, k.id);
    EntryWhileNotReached(s, env, bs, last, k, e);
    hide Run, CountChecks, NeverReached, PositiveQuorum, Inv, DaoParamsOk, EntriesOf, ApplyAll, CheckOf, ClosedFrom, OfProposal;
    ForwardStarted(s, r, k.id);
    ApplyAllInv(r, env, b.time, b.txs, LastTime(last, bs));
    ApplyAllStarted(r, env, b.time, b.txs, k.id);
    VotingBefore(r, r1, k.id);
    QueueOf(r1);
    var x := DueEntry(r1, b.time, k.id, e, n);
    if e.done + n > 0 { BlockLateQuorum(r1, env, b.time, x); } else { BlockEndsChecks(r1, env, b.time, x); }
  }

  lemma VotingBefore(s: Store, s': Store, id: nat)
    requires Forward(s, s', id) && IsVoting(s', id)
    ensures IsVoting(s, id)
  {
  }

  lemma DueEntry(s: Store, now: Time, id: nat, e: QuorumEntry, n: nat) returns (x: QKey)
    requires CheckDue(s, now, id) && StillChecked(EntriesOf(s.quorum, id), e, n)
    ensures x.id == id && x in s.quorum && x.time <= now && s.quorum[x].done == e.done + n
  {
    x :| x in s.quorum && x.id == id && x.time <= now;
    assert x in EntriesOf(s.quorum, id);
  }
}
