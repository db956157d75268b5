/**
 EndBlock as a whole.  It keeps the invariants and clears every queue up to the block time;
 driven by its queues it does what a plain scan over all proposals would do; and each
 proposal's fate follows from that proposal alone.
 */
module GovScan {
  import opened Options
  import opened GovTypes
  import opened CoinSums
  import opened GovQueue
  import opened GovStore
  import opened GovEndBlock
  import opened GovInvariants
  import opened GovBlock

  // ---------------------------------------------------------------- the three passes

  lemma DueInactive(s: Store, now: Time)
    requires Inv(s)
    ensures var ks := DueKeys(s.inactive, now);
            DistinctIds(ks) && (forall k | k in ks :: k in s.inactive && k.id in s.proposals)
  {
    hide Due, Sorted;
    IndexedIdsDistinct(s.inactive, DueKeys(s.inactive, now));
  }

  lemma DueActive(s: Store, now: Time)
    requires Inv(s)
    ensures var ks := DueKeys(s.active, now);
            DistinctIds(ks) && (forall k | k in ks :: k in s.active && k.id in s.proposals)
  {
    hide Due, Sorted;
    IndexedIdsDistinct(s.active, DueKeys(s.active, now));
  }

  lemma DueQuorum(s: Store, now: Time)
    requires Inv(s)
    ensures var ks := DueKeys(s.quorum.Keys, now);
            && DistinctIds(ks)
            && (forall k | k in ks :: k in s.quorum && k.time <= now && k.id in s.proposals)
            && (forall k | k in s.quorum && k !in ks :: k.time > now)
  {
    hide Due, Sorted;
    IndexedIdsDistinct(s.quorum.Keys, DueKeys(s.quorum.Keys, now));
  }

  lemma FreshId(s: Store, id: nat)
    requires Inv(s) && id in s.proposals
    ensures id != s.nextId
  {
  }

  lemma AfterInactiveInv(s: Store, env: Env, now: Time)
    requires Inv(s)
    ensures var s1 := AfterInactive(s, env, now);
            Inv(s1) && (forall k | k in s1.inactive :: k.time > now) && s1.params == s.params
  {
    var ks := DueKeys(s.inactive, now);
    DueInactive(s, now);
    forall k | k in ks ensures k.id != s.nextId { FreshId(s, k.id); }
    hide Inv, InactivePass;
    InactivePassInv(s, env, now, ks);
    InactivePassFrame(s, env, now, ks, s.nextId);
  }

  lemma AfterQuorumInv(s: Store, env: Env, now: Time)
    requires Inv(s) && PositiveQuorum(env)
    ensures var s2 := AfterQuorum(s, env, now);
            && Inv(s2) && s2.inactive == s.inactive && s2.world == s.world && s2.params == s.params
            && (forall k | k in s2.quorum :: k.time > now)
  {
    DueQuorum(s, now);
    hide Inv, QuorumPass;
    QuorumPassInv(s, env, now, DueKeys(s.quorum.Keys, now));
    QuorumPassInactive(s, env, now, DueKeys(s.quorum.Keys, now));
  }

  lemma {:induction false} QuorumPassInactive(s: Store, env: Env, now: Time, ks: seq<QKey>)
    ensures var s' := QuorumPass(s, env, now, ks);
            s'.inactive == s.inactive && s'.minDeposit == s.minDeposit && s'.nextId == s.nextId && s'.dao == s.dao
    decreases |ks|
  {
    if ks != [] {
      hide EffectOf;
      QuorumPassInactive(QuorumStep(s, env, now, ks[0]), env, now, ks[1..]);
    }
  }

  /** After the quorum pass, a proposal whose voting period is over has no entry left. */
  lemma DueHasNoEntry(s: Store, now: Time, k: QKey, x: QKey)
    requires Inv(s) && k in s.active && k.time <= now && x in s.quorum && x.time > now
    ensures x.id != k.id
  {
    assert EntryOk(x.time, s.quorum[x], s.proposals[x.id]);
  }

  lemma DueReady(s: Store, now: Time)
    requires Inv(s) && forall k | k in s.quorum :: k.time > now
    ensures Ready(s, DueKeys(s.active, now))
  {
    DueActive(s, now);
    hide Due, Sorted, Inv;
    forall k, x | k in DueKeys(s.active, now) && x in s.quorum ensures x.id != k.id {
      DueHasNoEntry(s, now, k, x);
    }
  }

  lemma AfterActiveInv(s: Store, env: Env, now: Time)
    requires Inv(s) && forall k | k in s.quorum :: k.time > now
    ensures var s3 := AfterActive(s, env, now);
            && Inv(s3) && s3.quorum == s.quorum && s3.params == s.params && s3.inactive == s.inactive
            && (forall k | k in s3.active :: k.time > now)
  {
    var ks := DueKeys(s.active, now);
    DueReady(s, now);
    hide Inv, ActivePass, Ready;
    ActivePassInv(s, env, ks);
    ActivePassInactive(s, env, ks);
  }

  lemma {:induction false} ActivePassInactive(s: Store, env: Env, ks: seq<QKey>)
    ensures var s' := ActivePass(s, env, ks);
            s'.inactive == s.inactive && s'.minDeposit == s.minDeposit && s'.nextId == s.nextId && s'.dao == s.dao
    decreases |ks|
  {
    if ks != [] {
      ActiveStepInactive(s, env, ks[0].id);
      hide ActiveStep;
      ActivePassInactive(ActiveStep(s, env, ks[0].id), env, ks[1..]);
    }
  }

  lemma ActiveStepInactive(s: Store, env: Env, id: nat)
    ensures var s' := ActiveStep(s, env, id);
            s'.inactive == s.inactive && s'.minDeposit == s.minDeposit && s'.nextId == s.nextId && s'.dao == s.dao
  {
    hide SettleDeposits, Verdict, VotesOf, TalliedVotes;
    if id in s.proposals && s.proposals[id].votingEnd.Some? {
      var o := env.tally(s.world, s.proposals[id], VotesOf(s, id));
      SettleKeeps(s.(votes := TalliedVotes(s.votes, id, o.err)), id, o.burn);
    }
  }

  // ---------------------------------------------------------------- the block

  /** No entry of any queue is due: the block has dealt with everything up to its time. */
  ghost predicate Clear(s: Store, now: Time) {
    && (forall k | k in s.inactive :: k.time > now)
    && (forall k | k in s.quorum :: k.time > now)
    && (forall k | k in s.active :: k.time > now)
  }

  /** One block: all invariants are kept, and no queue holds anything due any more. */
  lemma EndBlockInv(s: Store, env: Env, now: Time)
    requires Inv(s) && PositiveQuorum(env)
    ensures Inv(EndBlock(s, env, now)) && Clear(EndBlock(s, env, now), now) && EndBlock(s, env, now).params == s.params
  {
    hide AfterInactive, AfterQuorum, AfterActive, Inv;
    var s1 := AfterInactive(s, env, now);
    AfterInactiveInv(s, env, now);
    AfterQuorumInv(s1, env, now);
    var s2 := AfterQuorum(s1, env, now);
    AfterActiveInv(s2, env, now);
    var s3 := AfterActive(s2, env, now);
    InvMinDeposit(s3, env.throttle(s3.params, s3.minDeposit, s3.nActive, true, now));
  }

  /** The minimum deposit after a block: what the throttle makes of the one the activations left, for the proposals still voting. */
  lemma MinimumAfterBlock(s: Store, env: Env, now: Time)
    requires Inv(s) && PositiveQuorum(env)
    ensures var s' := EndBlock(s, env, now);
            s'.minDeposit == env.throttle(s.params, AfterInactive(s, env, now).minDeposit, |s'.active|, true, now)
  {
    var s1, s2 := AfterInactive(s, env, now), AfterQuorum(AfterInactive(s, env, now), env, now);
    hide AfterInactive, QuorumPass, ActivePass, Inv, DueKeys;
    AfterInactiveInv(s, env, now);
    AfterQuorumInv(s1, env, now);
    AfterActiveInv(s2, env, now);
    QuorumPassInactive(s1, env, now, DueKeys(s1.quorum.Keys, now));
    ActivePassInactive(s2, env, DueKeys(s2.active, now));
    CountIsSize(AfterActive(s2, env, now));
  }

  lemma CountIsSize(s: Store)
    requires Inv(s)
    ensures s.nActive == |s.active|
  {
  }

  lemma InvMinDeposit(s: Store, m: MinDeposit)
    requires Inv(s)
    ensures Inv(s.(minDeposit := m))
  {
    hide IndexesActive, IndexesInactive, AllTimes, Sum;
  }

  // ---------------------------------------------------------------- the scan

  /** What a scan over all proposals finds: deposit periods that are over. */
  function OverdueDeposits(s: Store, now: Time): set<QKey> {
    set id | id in s.proposals && s.proposals[id].status == DepositPeriod && s.proposals[id].depositEnd <= now
      :: QKey(s.proposals[id].depositEnd, id)
  }

  /** What a scan over all proposals finds: voting periods that are over. */
  function OverdueVotes(s: Store, now: Time): set<QKey> {
    set id | id in s.proposals && s.proposals[id].status == VotingPeriod
             && s.proposals[id].votingEnd.Some? && s.proposals[id].votingEnd.value <= now
      :: QKey(s.proposals[id].votingEnd.value, id)
  }

  /** EndBlock without the inactive and active queues. */
  ghost function ScanBlock(s: Store, env: Env, now: Time): Store {
    var s1 := InactivePass(s, env, now, Sorted(OverdueDeposits(s, now)));
    var s2 := AfterQuorum(s1, env, now);
    var s3 := ActivePass(s2, env, Sorted(OverdueVotes(s2, now)));
    s3.(minDeposit := env.throttle(s3.params, s3.minDeposit, s3.nActive, true, now))
  }

  lemma DueIsOverdueDeposits(s: Store, now: Time)
    requires IndexesInactive(s.inactive, s.proposals)
    ensures Due(s.inactive, now) == OverdueDeposits(s, now)
  {
    forall k ensures k in Due(s.inactive, now) <==> k in OverdueDeposits(s, now) {
      if k in Due(s.inactive, now) {
        assert k == QKey(s.proposals[k.id].depositEnd, k.id);
      }
    }
  }

  lemma DueIsOverdueVotes(s: Store, now: Time)
    requires IndexesActive(s.active, s.proposals)
    ensures Due(s.active, now) == OverdueVotes(s, now)
  {
    forall k ensures k in Due(s.active, now) <==> k in OverdueVotes(s, now) {
      if k in Due(s.active, now) {
        assert k == QKey(s.proposals[k.id].votingEnd.value, k.id);
      }
    }
  }

  /** The queue-driven block refines the scan. */
  lemma EndBlockIsScan(s: Store, env: Env, now: Time)
    requires Inv(s) && PositiveQuorum(env)
    ensures EndBlock(s, env, now) == ScanBlock(s, env, now)
  {
    DueIsOverdueDeposits(s, now);
    hide OverdueDeposits, OverdueVotes, InactivePass, ActivePass, AfterQuorum, Sorted, Due;
    var s1 := AfterInactive(s, env, now);
    AfterInactiveInv(s, env, now);
    AfterQuorumInv(s1, env, now);
    var s2 := AfterQuorum(s1, env, now);
    assert IndexesActive(s2.active, s2.proposals);
    hide Inv;
    DueIsOverdueVotes(s2, now);
  }
}
