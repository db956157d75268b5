/**
 The fate of a single proposal in one EndBlock, for each status it can have when the block
 begins: what becomes of a deposit period, of a voting period, and of everything else.
 */
module GovFate {
  import opened Options
  import opened GovTypes
  import opened CoinSums
  import opened GovQueue
  import opened GovStore
  import opened GovEndBlock
  import opened GovInvariants
  import opened GovBlock
  import opened GovScan

  // ---------------------------------------------------------------- quorum checks

  /** Some due check of the proposal finds a late quorum. */
  ghost predicate LateQuorum(s: Store, env: Env, now: Time, id: nat) {
    exists k :: k in s.quorum && k.id == id && k.time <= now && id in s.proposals
                && s.proposals[id].votingEnd.Some? && EffectOf(s, env, now, k) == Extended
  }

  /** The proposal as the quorum checks of this block leave it. */
  ghost function Checked(s: Store, env: Env, now: Time, id: nat): Proposal
    requires id in s.proposals
  {
    if LateQuorum(s, env, now, id) then s.proposals[id].(votingEnd := Some(now + s.params.extension)) else s.proposals[id]
  }

  lemma CheckedAt(s: Store, env: Env, now: Time, id: nat)
    requires Inv(s) && id in s.proposals
    ensures var l := LocalOf(AfterQuorum(s, env, now), id);
            && l.proposal == Some(Checked(s, env, now, id))
            && l.votes == OfProposal(s.votes, id) && l.deposits == OfProposal(s.deposits, id)
  {
    var ks := DueKeys(s.quorum.Keys, now);
    DueQuorum(s, now);
    hide Sorted, Due, EffectOf, QuorumPass, OfProposal, EntriesOf;
    if k :| k in ks && k.id == id {
      EntryHasEnd(s, k);
      QuorumPassAt(s, env, now, ks, k);
      OneEntry(s, k);
      hide Inv, DistinctIds;
      ApplyProposal(s, now, k, EffectOf(s, env, now, k));
      hide LocalOf, ApplyEffect;
      assert LateQuorum(s, env, now, id) <==> EffectOf(s, env, now, k) == Extended;
    } else {
      hide Inv, DistinctIds;
      QuorumPassFrame(s, env, now, ks, id);
      assert !LateQuorum(s, env, now, id);
    }
  }

  lemma OneEntry(s: Store, k: QKey)
    requires QuorumQueue(s) && k in s.quorum
    ensures forall x | x in s.quorum && x.id == k.id :: x == k
  {
  }

  lemma ApplyProposal(s: Store, now: Time, k: QKey, eff: QuorumEffect)
    requires k in s.quorum && k.id in s.proposals && s.proposals[k.id].votingEnd.Some?
    ensures var l := LocalOf(ApplyEffect(s, now, k, eff), k.id);
            && l.proposal == Some(if eff == Extended then s.proposals[k.id].(votingEnd := Some(now + s.params.extension))
                                  else s.proposals[k.id])
            && l.votes == OfProposal(s.votes, k.id) && l.deposits == OfProposal(s.deposits, k.id)
  {
    hide EntriesOf, OfProposal;
  }

  /** Only a voting proposal is moved, and never to an earlier end. */
  lemma CheckedOnlyLater(s: Store, env: Env, now: Time, id: nat)
    requires Inv(s) && PositiveQuorum(env) && id in s.proposals
    ensures LateQuorum(s, env, now, id) ==>
              && s.proposals[id].status == VotingPeriod
              && s.proposals[id].votingEnd.Some?
              && now + s.params.extension > s.proposals[id].votingEnd.value
    ensures Checked(s, env, now, id) ==
            if LateQuorum(s, env, now, id) then s.proposals[id].(votingEnd := Some(now + s.params.extension))
            else s.proposals[id]
  {
    hide EffectOf;
    if LateQuorum(s, env, now, id) {
      var k :| k in s.quorum && k.id == id && k.time <= now && id in s.proposals
               && s.proposals[id].votingEnd.Some? && EffectOf(s, env, now, k) == Extended;
      ExtendsOnlyVoting(s, env, now, k);
      EffectIsOk(s, env, now, k);
    }
  }

  // ---------------------------------------------------------------- the fates

  lemma NotDueInactive(s: Store, env: Env, now: Time, id: nat)
    requires Inv(s) && id in s.proposals
    requires s.proposals[id].status == DepositPeriod ==> s.proposals[id].depositEnd > now
    ensures LocalOf(AfterInactive(s, env, now), id) == LocalOf(s, id)
  {
    var ks := DueKeys(s.inactive, now);
    forall k | k in ks ensures k.id != id {
      assert k in s.inactive && k.time <= now;
    }
    hide Sorted, Due, Inv, InactivePass, LocalOf;
    InactivePassFrame(s, env, now, ks, id);
  }

  lemma NotDueActive(s: Store, env: Env, now: Time, id: nat)
    requires Inv(s)
    requires id in s.proposals && s.proposals[id].status == VotingPeriod ==>
               s.proposals[id].votingEnd.Some? && s.proposals[id].votingEnd.value > now
    ensures LocalOf(AfterActive(s, env, now), id) == LocalOf(s, id)
  {
    var ks := DueKeys(s.active, now);
    forall k | k in ks ensures k.id != id {
      assert k in s.active && k.time <= now;
    }
    hide Sorted, Due, Inv, ActivePass, LocalOf;
    ActivePassFrame(s, env, ks, id);
  }

  lemma DueKeyAt(s: Store, now: Time, id: nat) returns (i: nat)
    requires Inv(s) && id in s.proposals && s.proposals[id].status == VotingPeriod
    requires s.proposals[id].votingEnd.Some? && s.proposals[id].votingEnd.value <= now
    ensures i < |DueKeys(s.active, now)| && DueKeys(s.active, now)[i].id == id
  {
    hide Sorted, Due;
    var ks, k := DueKeys(s.active, now), QKey(s.proposals[id].votingEnd.value, id);
    assert k in s.active;
    assert k in ks;
    i :| 0 <= i < |ks| && ks[i] == k;
  }

  lemma DueActiveCloses(s: Store, env: Env, now: Time, id: nat)
    requires Inv(s) && (forall k | k in s.quorum :: k.time > now) && id in s.proposals
    requires s.proposals[id].status == VotingPeriod && s.proposals[id].votingEnd.Some? && s.proposals[id].votingEnd.value <= now
    ensures ClosedFrom(LocalOf(AfterActive(s, env, now), id), s.proposals[id])
    ensures LocalOf(AfterActive(s, env, now), id).entries == map[]
  {
    var ks := DueKeys(s.active, now);
    DueReady(s, now);
    var i := DueKeyAt(s, now, id);
    AfterActiveInv(s, env, now);
    hide Sorted, Due, Inv, ActivePass, DueKeys, Ready;
    ActivePassAt(s, env, ks, i);
    hide ClosedFrom, OfProposal;
    assert EntriesOf(s.quorum, id) == map[];
  }

  /**
   A voting proposal.  Its end may first be moved by a late quorum; then, if the end has come,
   it is closed and its deposits are gone, and otherwise it stays as it is.
   */
  lemma VotingFate(s: Store, env: Env, now: Time, id: nat)
    requires Inv(s) && PositiveQuorum(env) && id in s.proposals && s.proposals[id].status == VotingPeriod
    ensures var s1 := AfterInactive(s, env, now);
            && LocalOf(s1, id) == LocalOf(s, id) && id in s1.proposals
            && var p, l := Checked(s1, env, now, id), LocalOf(EndBlock(s, env, now), id);
            && p.votingEnd.Some? && s.proposals[id].votingEnd.value <= p.votingEnd.value
            && if p.votingEnd.value <= now
               then ClosedFrom(l, p) && l.entries == map[]
               else l.proposal == Some(p) && l.votes == OfProposal(s.votes, id) && l.deposits == OfProposal(s.deposits, id)
  {
    VotingHasEnd(s, id);
    hide Inv, AfterInactive, AfterQuorum, AfterActive, Checked, ClosedFrom, OfProposal, EntriesOf;
    var s1 := AfterInactive(s, env, now);
    NotDueInactive(s, env, now, id);
    AfterInactiveInv(s, env, now);
    assert ProposalOf(s1.proposals, id) == Some(s.proposals[id]);
    CheckedAt(s1, env, now, id);
    CheckedOnlyLater(s1, env, now, id);
    AfterQuorumInv(s1, env, now);
    var s2 := AfterQuorum(s1, env, now);
    var p := Checked(s1, env, now, id);
    assert ProposalOf(s2.proposals, id) == Some(p);
    if p.votingEnd.value <= now {
      DueActiveCloses(s2, env, now, id);
    } else {
      NotDueActive(s2, env, now, id);
    }
  }

  lemma VotingHasEnd(s: Store, id: nat)
    requires Inv(s) && id in s.proposals && s.proposals[id].status == VotingPeriod
    ensures s.proposals[id].votingStart.Some? && s.proposals[id].votingEnd.Some?
  {
  }

  /** A proposal that is neither in deposit nor in voting period is never touched again. */
  lemma ClosedFate(s: Store, env: Env, now: Time, id: nat)
    requires Inv(s) && PositiveQuorum(env) && id in s.proposals && !Open(s.proposals[id])
    ensures LocalOf(EndBlock(s, env, now), id).proposal == Some(s.proposals[id])
  {
    hide Inv, AfterInactive, AfterQuorum, AfterActive, Checked, OfProposal, EntriesOf;
    var s1 := AfterInactive(s, env, now);
    NotDueInactive(s, env, now, id);
    AfterInactiveInv(s, env, now);
    assert ProposalOf(s1.proposals, id) == Some(s.proposals[id]);
    CheckedAt(s1, env, now, id);
    CheckedOnlyLater(s1, env, now, id);
    AfterQuorumInv(s1, env, now);
    var s2 := AfterQuorum(s1, env, now);
    assert ProposalOf(s2.proposals, id) == Some(s.proposals[id]);
    NotDueActive(s2, env, now, id);
  }

  // ---------------------------------------------------------------- deposit periods

  /** The total reaches the minimum deposit in force: the last one stored, or the floor while none is. */
  predicate Reaches(m: MinDeposit, floor: Coins, total: Coins) {
    if m.value == multiset{} then floor <= total else m.value <= total
  }

  /** A dropped proposal leaves nothing behind. */
  const GONE: Local := Local(None, map[], map[], map[])

  /** The local state of a proposal at its activation. */
  function Activated(p: Proposal, id: nat, now: Time, g: GovParams, deposits: map<DKey, Coins>): Local {
    Local(Some(p.(status := VotingPeriod, votingStart := Some(now), votingEnd := Some(now + g.votingPeriod))),
          if g.checkCount == 0 then map[]
          else map[QKey(now + g.quorumTimeout, id) := QuorumEntry(now + g.quorumTimeout, g.checkCount, 0)],
          map[], deposits)
  }

  lemma DepositLocal(s: Store, id: nat)
    requires Inv(s) && id in s.proposals && s.proposals[id].status == DepositPeriod
    ensures EntriesOf(s.quorum, id) == map[] && OfProposal(s.votes, id) == map[] && s.proposals[id].votingEnd.None?
  {
  }

  lemma InactiveStepAt(s: Store, env: Env, now: Time, id: nat)
    requires id in s.proposals && s.proposals[id].status == DepositPeriod && s.proposals[id].votingEnd.None?
    requires EntriesOf(s.quorum, id) == map[] && OfProposal(s.votes, id) == map[]
    ensures LocalOf(InactiveStep(s, env, now, id), id) ==
            if Reaches(s.minDeposit, s.params.depositFloor, s.proposals[id].totalDeposit)
            then Activated(s.proposals[id], id, now, s.params, OfProposal(s.deposits, id))
            else GONE
  {
    hide OfProposal;
    if Reaches(s.minDeposit, s.params.depositFloor, s.proposals[id].totalDeposit) {
      EntriesPlus(s.quorum, QKey(now + s.params.quorumTimeout, id), QuorumEntry(now + s.params.quorumTimeout, s.params.checkCount, 0));
      hide EntriesOf;
    } else {
      SettleLocal(DeleteProposal(s, id), id, s.params.burnPrevote);
      hide SettleDeposits, EntriesOf;
    }
  }

  lemma SettleLocal(s: Store, id: nat, burn: bool)
    ensures var s' := SettleDeposits(s, id, burn);
            && s' == s.(deposits := s'.deposits, world := s'.world, halted := s'.halted)
            && OfProposal(s'.deposits, id) == map[]
  {
    hide Sum, PayBack;
  }

  /** The deposits meet the minimum deposit in force when the proposal's turn comes; earlier activations may have raised it. */
  ghost predicate MeetsAtTurn(s: Store, env: Env, now: Time, id: nat)
    requires id in s.proposals
  {
    var ks := DueKeys(s.inactive, now);
    exists i :: 0 <= i < |ks| && ks[i].id == id &&
                Reaches(InactiveUpTo(s, env, now, ks, i).minDeposit, s.params.depositFloor, s.proposals[id].totalDeposit)
  }

  /** The place of a proposal in the inactive pass. */
  lemma DueDepositAt(s: Store, now: Time, id: nat) returns (i: nat)
    requires Inv(s) && id in s.proposals && s.proposals[id].status == DepositPeriod && s.proposals[id].depositEnd <= now
    ensures i < |DueKeys(s.inactive, now)| && DueKeys(s.inactive, now)[i].id == id
  {
    hide Sorted, Due;
    var ks, k := DueKeys(s.inactive, now), QKey(s.proposals[id].depositEnd, id);
    assert k in s.inactive;
    assert k in ks;
    i :| 0 <= i < |ks| && ks[i] == k;
  }

  lemma MeetsAtTurnIff(s: Store, env: Env, now: Time, id: nat, i: nat)
    requires id in s.proposals && DistinctIds(DueKeys(s.inactive, now))
    requires i < |DueKeys(s.inactive, now)| && DueKeys(s.inactive, now)[i].id == id
    ensures MeetsAtTurn(s, env, now, id) <==>
            Reaches(InactiveUpTo(s, env, now, DueKeys(s.inactive, now), i).minDeposit, s.params.depositFloor, s.proposals[id].totalDeposit)
  {
    hide DueKeys, InactiveUpTo, Reaches;
  }

  /**
   The minimum deposit that a due proposal meets, turn by turn: the first finds the stored one,
   and each proposal that reaches it makes the throttle raise it for those after it.
   */
  lemma MinimumAtTurn(s: Store, env: Env, now: Time, i: nat)
    requires Inv(s) && i < |DueKeys(s.inactive, now)|
    ensures var ks := DueKeys(s.inactive, now);
            var si, sj := InactiveUpTo(s, env, now, ks, i), InactiveUpTo(s, env, now, ks, i + 1);
            && ks[i].id in s.proposals && s.proposals[ks[i].id].status == DepositPeriod
            && (i == 0 ==> si == s)
            && if Reaches(si.minDeposit, s.params.depositFloor, s.proposals[ks[i].id].totalDeposit)
               then sj.nActive == si.nActive + 1 && sj.minDeposit == env.throttle(s.params, si.minDeposit, sj.nActive, false, now)
               else sj.nActive == si.nActive && sj.minDeposit == si.minDeposit
  {
    var ks := DueKeys(s.inactive, now);
    DueInactive(s, now);
    assert ks[i] in ks;
    DepositAt(s, ks[i]);
    hide DueKeys, Inv, InactivePass, InactiveStep, LocalOf, DistinctIds, Reaches;
    InactivePassTurn(s, env, now, ks, i);
    var si := InactiveUpTo(s, env, now, ks, i);
    OneMoreTurn(s, env, now, ks, i);
    SameProposal(si, s, ks[i].id);
    MinimumOfStep(si, env, now, ks[i].id);
  }

  lemma SameProposal(s: Store, s': Store, id: nat)
    requires LocalOf(s, id) == LocalOf(s', id)
    ensures id in s.proposals <==> id in s'.proposals
    ensures id in s.proposals ==> s.proposals[id] == s'.proposals[id]
  {
    hide EntriesOf, OfProposal;
    assert ProposalOf(s.proposals, id) == ProposalOf(s'.proposals, id);
  }

  lemma OneMoreTurn(s: Store, env: Env, now: Time, ks: seq<QKey>, i: nat)
    requires i < |ks|
    ensures InactiveUpTo(s, env, now, ks, i + 1) == InactiveStep(InactiveUpTo(s, env, now, ks, i), env, now, ks[i].id)
    ensures i == 0 ==> InactiveUpTo(s, env, now, ks, i) == s
  {
    hide InactiveStep;
    assert ks[..i + 1] == ks[..i] + [ks[i]];
    InactivePassSplit(s, env, now, ks[..i], [ks[i]]);
  }

  lemma MinimumOfStep(s: Store, env: Env, now: Time, id: nat)
    requires id in s.proposals && s.proposals[id].status == DepositPeriod
    ensures var s' := InactiveStep(s, env, now, id);
            if Reaches(s.minDeposit, s.params.depositFloor, s.proposals[id].totalDeposit)
            then s'.nActive == s.nActive + 1 && s'.minDeposit == env.throttle(s.params, s.minDeposit, s'.nActive, false, now)
            else s'.nActive == s.nActive && s'.minDeposit == s.minDeposit
  {
    if !Reaches(s.minDeposit, s.params.depositFloor, s.proposals[id].totalDeposit) {
      DeleteKeeps(s, id);
      SettleKeeps(DeleteProposal(s, id), id, s.params.burnPrevote);
      hide DeleteProposal, SettleDeposits;
    }
  }

  lemma DepositAfterInactive(s: Store, env: Env, now: Time, id: nat)
    requires Inv(s) && id in s.proposals && s.proposals[id].status == DepositPeriod && s.proposals[id].depositEnd <= now
    ensures LocalOf(AfterInactive(s, env, now), id) ==
            if MeetsAtTurn(s, env, now, id)
            then Activated(s.proposals[id], id, now, s.params, OfProposal(s.deposits, id))
            else GONE
  {
    hide DueKeys, Inv, InactivePass, InactiveUpTo, InactiveStep, Reaches, EntriesOf, OfProposal, Activated, DistinctIds;
    hide MeetsAtTurn;
    var ks := DueKeys(s.inactive, now);
    DueInactive(s, now);
    DepositLocal(s, id);
    var i := DueDepositAt(s, now, id);
    MeetsAtTurnIff(s, env, now, id, i);
    InactivePassTurn(s, env, now, ks, i);
    var si := InactiveUpTo(s, env, now, ks, i);
    assert ProposalOf(si.proposals, id) == Some(s.proposals[id]);
    InactiveStepAt(si, env, now, id);
  }

  /** A fresh entry extends nothing, even when the first check is due at once. */
  lemma FreshNotLate(s: Store, env: Env, now: Time, id: nat)
    requires forall k | k in EntriesOf(s.quorum, id) :: k in s.quorum && s.quorum[k].done == 0
    ensures !LateQuorum(s, env, now, id)
  {
    hide HasReachedQuorum, NextCheck;
    forall k | k in s.quorum && k.id == id ensures k in EntriesOf(s.quorum, id) {}
  }

  /** Without a quorum-check entry, only the first pass can touch a proposal that is not voting. */
  lemma NoEntryRest(s: Store, env: Env, now: Time, id: nat)
    requires Inv(s) && PositiveQuorum(env) && EntriesOf(s.quorum, id) == map[]
    requires id in s.proposals ==> s.proposals[id].status != VotingPeriod
    ensures LocalOf(AfterActive(AfterQuorum(s, env, now), env, now), id) == LocalOf(s, id)
  {
    var s2 := AfterQuorum(s, env, now);
    var ks := DueKeys(s.quorum.Keys, now);
    DueQuorum(s, now);
    AfterQuorumInv(s, env, now);
    hide Sorted, Due, Inv, QuorumPass, AfterActive, DueKeys, OfProposal;
    forall k | k in ks ensures k.id != id {
      assert k in s.quorum && k !in EntriesOf(s.quorum, id);
    }
    QuorumPassFrame(s, env, now, ks, id);
    hide EntriesOf;
    assert ProposalOf(s2.proposals, id) == ProposalOf(s.proposals, id);
    NotDueActive(s2, env, now, id);
  }

  lemma FreshlyActivated(s: Store, env: Env, now: Time, id: nat, p: Proposal, g: GovParams, deposits: map<DKey, Coins>)
    requires LocalOf(s, id) == Activated(p, id, now, g, deposits)
    ensures id in s.proposals && s.proposals[id] == VotingProposal(p, now, g.votingPeriod)
    ensures !LateQuorum(s, env, now, id)
  {
    hide LateQuorum, EntriesOf;
    assert ProposalOf(s.proposals, id) == Some(VotingProposal(p, now, g.votingPeriod));
    forall k | k in EntriesOf(s.quorum, id) ensures k in s.quorum && s.quorum[k].done == 0 {
      InEntries(s.quorum, k, id);
    }
    FreshNotLate(s, env, now, id);
  }

  lemma InEntries(q: map<QKey, QuorumEntry>, k: QKey, id: nat)
    requires k in EntriesOf(q, id)
    ensures k in q && EntriesOf(q, id)[k] == q[k]
  {
  }

  /** A proposal that finds no late quorum and is still to end goes on voting. */
  lemma NotLateRest(s: Store, env: Env, now: Time, id: nat)
    requires Inv(s) && PositiveQuorum(env) && id in s.proposals && !LateQuorum(s, env, now, id)
    requires s.proposals[id].votingEnd.Some? && s.proposals[id].votingEnd.value > now
    ensures var l := LocalOf(AfterActive(AfterQuorum(s, env, now), env, now), id);
            && l.proposal == Some(s.proposals[id])
            && l.votes == OfProposal(s.votes, id) && l.deposits == OfProposal(s.deposits, id)
  {
    hide Inv, AfterQuorum, AfterActive, LateQuorum, OfProposal, EntriesOf;
    CheckedAt(s, env, now, id);
    AfterQuorumInv(s, env, now);
    var s2 := AfterQuorum(s, env, now);
    assert ProposalOf(s2.proposals, id) == Some(s.proposals[id]);
    NotDueActive(s2, env, now, id);
  }

  /** Entries that are not due are left alone. */
  lemma EntriesWait(s: Store, env: Env, now: Time, id: nat)
    requires Inv(s) && PositiveQuorum(env) && forall k | k in EntriesOf(s.quorum, id) :: k.time > now
    ensures EntriesOf(EndOf(s, env, now).quorum, id) == EntriesOf(s.quorum, id)
  {
    var ks := DueKeys(s.quorum.Keys, now);
    DueQuorum(s, now);
    hide Sorted, Due, Inv, QuorumPass, AfterActive, DueKeys, OfProposal, DistinctIds;
    forall k | k in ks ensures k.id != id {
      if k.id == id { InEntriesOf(s.quorum, k); }
    }
    QuorumPassFrame(s, env, now, ks, id);
    hide EntriesOf;
    AfterQuorumInv(s, env, now);
    AfterActiveInv(AfterQuorum(s, env, now), env, now);
  }

  /** The two passes that follow the inactive one. */
  ghost function EndOf(s: Store, env: Env, now: Time): Store {
    AfterActive(AfterQuorum(s, env, now), env, now)
  }

  lemma InEntriesOf(q: map<QKey, QuorumEntry>, k: QKey)
    requires k in q
    ensures k in EntriesOf(q, k.id)
  {
  }

  /** A proposal activated in this block goes on voting, and waits for its first check if that is still to come. */
  lemma ActivatedRest(s: Store, env: Env, now: Time, id: nat, p: Proposal, g: GovParams, deposits: map<DKey, Coins>)
    requires Inv(s) && PositiveQuorum(env) && g.votingPeriod > 0 && LocalOf(s, id) == Activated(p, id, now, g, deposits)
    ensures var l, a := LocalOf(EndOf(s, env, now), id), Activated(p, id, now, g, deposits);
            && l.proposal == a.proposal && l.votes == map[] && l.deposits == deposits
            && (g.checkCount == 0 || g.quorumTimeout > 0 ==> l.entries == a.entries)
  {
    hide Inv, PositiveQuorum, EndOf, OfProposal, EntriesOf, LateQuorum;
    FreshlyActivated(s, env, now, id, p, g, deposits);
    NotLateRest(s, env, now, id);
    if g.checkCount == 0 || g.quorumTimeout > 0 { EntriesWait(s, env, now, id); }
    EndOfIs(s, env, now);
  }

  lemma EndOfIs(s: Store, env: Env, now: Time)
    ensures EndOf(s, env, now) == AfterActive(AfterQuorum(s, env, now), env, now)
  {
  }

  lemma EndBlockLocal(s: Store, env: Env, now: Time, id: nat)
    ensures LocalOf(EndBlock(s, env, now), id) == LocalOf(EndOf(AfterInactive(s, env, now), env, now), id)
  {
    hide AfterInactive, AfterQuorum, AfterActive, EntriesOf, OfProposal;
  }

  /**
   A proposal whose deposit period is over starts voting if its deposits meet the minimum, and
   vanishes with its deposits otherwise; one whose deposit period is not over is left alone.
   */
  lemma DepositFate(s: Store, env: Env, now: Time, id: nat)
    requires Inv(s) && PositiveQuorum(env) && id in s.proposals && s.proposals[id].status == DepositPeriod
    ensures var p, l := s.proposals[id], LocalOf(EndBlock(s, env, now), id);
            if p.depositEnd > now then l == LocalOf(s, id)
            else if MeetsAtTurn(s, env, now, id)
            then && l.proposal == Some(p.(status := VotingPeriod, votingStart := Some(now), votingEnd := Some(now + s.params.votingPeriod)))
                 && l.votes == map[] && l.deposits == OfProposal(s.deposits, id)
                 && (s.params.checkCount == 0 ==> l.entries == map[])
                 && (s.params.checkCount > 0 && s.params.quorumTimeout > 0 ==>
                       l.entries == map[QKey(now + s.params.quorumTimeout, id) :=
                                        QuorumEntry(now + s.params.quorumTimeout, s.params.checkCount, 0)])
            else l == Local(None, map[], map[], map[])
  {
    hide Inv, PositiveQuorum, AfterInactive, AfterQuorum, AfterActive, EndBlock, EndOf, MeetsAtTurn, EntriesOf, OfProposal;
    hide LateQuorum;
    var p, s1 := s.proposals[id], AfterInactive(s, env, now);
    AfterInactiveInv(s, env, now);
    DepositLocal(s, id);
    EndBlockLocal(s, env, now, id);
    EndOfIs(s1, env, now);
    if p.depositEnd > now {
      NotDueInactive(s, env, now, id);
      SameProposal(s1, s, id);
      NoEntryRest(s1, env, now, id);
    } else {
      DepositAfterInactive(s, env, now, id);
      if MeetsAtTurn(s, env, now, id) {
        PositiveVotingPeriod(s);
        ActivatedRest(s1, env, now, id, p, s.params, OfProposal(s.deposits, id));
      } else {
        assert ProposalOf(s1.proposals, id) == LocalOf(s1, id).proposal;
        NoEntryRest(s1, env, now, id);
      }
    }
  }

  lemma NoEntries(s: Store, id: nat)
    requires Inv(s) && (id in s.proposals ==> s.proposals[id].status == DepositPeriod)
    ensures EntriesOf(s.quorum, id) == map[]
  {
  }

  lemma IdleInactive(s: Store, env: Env, now: Time, id: nat)
    requires Inv(s)
    requires id in s.proposals ==> s.proposals[id].status == DepositPeriod && s.proposals[id].depositEnd > now
    ensures LocalOf(AfterInactive(s, env, now), id) == LocalOf(s, id)
  {
    var ks := DueKeys(s.inactive, now);
    forall k | k in ks ensures k.id != id {
      assert k in s.inactive && k.time <= now;
    }
    hide Sorted, Due, Inv, InactivePass, LocalOf;
    InactivePassFrame(s, env, now, ks, id);
  }

  /** An unknown id, and a deposit period that goes on, see nothing of the block. */
  lemma IdleFate(s: Store, env: Env, now: Time, id: nat)
    requires Inv(s) && PositiveQuorum(env)
    requires id in s.proposals ==> s.proposals[id].status == DepositPeriod && s.proposals[id].depositEnd > now
    ensures LocalOf(AfterInactive(s, env, now), id) == LocalOf(s, id)
    ensures LocalOf(EndBlock(s, env, now), id) == LocalOf(s, id) && EntriesOf(s.quorum, id) == map[]
  {
    NoEntries(s, id);
    IdleInactive(s, env, now, id);
    var s1 := AfterInactive(s, env, now);
    AfterInactiveInv(s, env, now);
    hide Inv, AfterInactive, AfterQuorum, AfterActive, EntriesOf, OfProposal;
    assert ProposalOf(s1.proposals, id) == ProposalOf(s.proposals, id);
    NoEntryRest(s1, env, now, id);
  }

  lemma PositiveVotingPeriod(s: Store)
    requires Inv(s)
    ensures s.params.votingPeriod > 0
  {
  }

  // ---------------------------------------------------------------- the verdict

  /** The world a tally leaves to the proposal's messages: deposits settled. */
  ghost function SettledWorld(s: Store, env: Env, id: nat): World
    requires id in s.proposals
  {
    var o := env.tally(s.world, s.proposals[id], VotesOf(s, id));
    SettleDeposits(s.(votes := TalliedVotes(s.votes, id, o.err)), id, o.burn).world
  }

  /**
   The verdict: rejected exactly when the tally says so; passed exactly when it passes and its
   messages unpack and succeed one after the other from the settled world on, and then the
   world is the last of that chain; failed otherwise, with no trace of the messages.
   */
  lemma VerdictExact(s: Store, env: Env, k: QKey)
    requires Inv(s) && k in s.active
    ensures k.id in s.proposals && k.id in ActiveStep(s, env, k.id).proposals
    ensures var p, p' := s.proposals[k.id], ActiveStep(s, env, k.id).proposals[k.id];
            var o, w, w' := env.tally(s.world, p, VotesOf(s, k.id)), SettledWorld(s, env, k.id), ActiveStep(s, env, k.id).world;
            && p' == p.(status := p'.status, tally := o.result)
            && (p'.status == Rejected <==> !o.passes)
            && (p'.status == Passed <==>
                  o.passes && AllUnpack(p.messages) && exists ws :: Chain(env, ws, p.messages) && ws[0] == w)
            && (forall ws :: p'.status == Passed && Chain(env, ws, p.messages) && ws[0] == w ==>
                  w' == env.afterTally(ws[|p.messages|], p', o))
            && (p'.status != Passed ==> w' == env.afterTally(w, p', o))
  {
    VotingAt(s, k);
    var p := s.proposals[k.id];
    hide Inv, SettleDeposits, TalliedVotes, VotesOf, Execute, AllUnpack, RunMessages;
    var o := env.tally(s.world, p, VotesOf(s, k.id));
    SettleKeeps(s.(votes := TalliedVotes(s.votes, k.id, o.err)), k.id, o.burn);
    AllOrNothing(env, SettledWorld(s, env, k.id), p.messages);
    ExecuteVerdict(env, SettledWorld(s, env, k.id), p.messages);
  }

  lemma ExecuteVerdict(env: Env, w: World, msgs: seq<Option<Message>>)
    ensures Execute(env, w, msgs).0 == Passed || Execute(env, w, msgs).0 == Failed
  {
  }

  /** The votes of a proposal after its tally: none, or, if the tally stopped with an error, those it had not deleted. */
  lemma VotesAfterTally(s: Store, env: Env, k: QKey)
    requires Inv(s) && k in s.active
    ensures k.id in s.proposals
    ensures var o, vs := env.tally(s.world, s.proposals[k.id], VotesOf(s, k.id)), OfProposal(s.votes, k.id);
            OfProposal(ActiveStep(s, env, k.id).votes, k.id) ==
            if o.err.None? then map[] else map d | d in vs && d.who !in o.err.value :: vs[d]
  {
    VotingAt(s, k);
    hide Inv, VotesOf, SettleDeposits, Verdict;
    var o := env.tally(s.world, s.proposals[k.id], VotesOf(s, k.id));
    SettleKeeps(s.(votes := TalliedVotes(s.votes, k.id, o.err)), k.id, o.burn);
    VotesLeft(s.votes, k.id, o.err);
    hide TalliedVotes, OfProposal;
  }

  lemma VotesLeft(votes: map<DKey, Vote>, id: nat, err: Option<set<Address>>)
    ensures var vs := OfProposal(votes, id);
            OfProposal(TalliedVotes(votes, id, err), id) ==
            if err.None? then map[] else map d | d in vs && d.who !in err.value :: vs[d]
  {
  }

  /**
   A vote whose end has come is closed by one tally of its votes, in the world that the due
   proposals before it have left: with the tally's result, rejected exactly if it does not
   pass, without deposits, and with the votes that the tally left.
   */
  lemma ClosedByTally(s: Store, env: Env, now: Time, id: nat) returns (i: nat)
    requires Inv(s) && (forall k | k in s.quorum :: k.time > now) && id in s.proposals
    requires s.proposals[id].status == VotingPeriod && s.proposals[id].votingEnd.Some? && s.proposals[id].votingEnd.value <= now
    ensures var ks, p, l := DueKeys(s.active, now), s.proposals[id], LocalOf(AfterActive(s, env, now), id);
            && i < |ks| && ks[i].id == id && l.proposal.Some?
            && var o, p' := env.tally(ActiveUpTo(s, env, ks, i).world, p, VotesOf(s, id)), l.proposal.value;
            && p' == p.(status := p'.status, tally := o.result)
            && (p'.status == Rejected <==> !o.passes) && (o.passes ==> p'.status == Passed || p'.status == Failed)
            && l.deposits == map[]
            && var vs := OfProposal(s.votes, id);
            l.votes == if o.err.None? then map[] else map d | d in vs && d.who !in o.err.value :: vs[d]
  {
    hide Inv, ActiveStep, ActivePass, LocalOf, DueKeys, Ready, VotesOf, OfProposal;
    var ks := DueKeys(s.active, now);
    DueReady(s, now);
    i := DueKeyAt(s, now, id);
    ReadyAt(s, ks, i);
    ActivePassTurn(s, env, ks, i);
    ReadyUpTo(s, ks, i);
    ActivePassInv(s, env, ks[..i]);
    var si := ActiveUpTo(s, env, ks, i);
    StillActive(s, env, ks, i);
    TallyAt(s, si, env, ks[i]);
  }

  lemma ReadyAt(s: Store, ks: seq<QKey>, i: nat)
    requires Ready(s, ks) && i < |ks|
    ensures DistinctIds(ks) && ks[i] in s.active
  {
    assert ks[i] in ks;
  }

  lemma ReadyUpTo(s: Store, ks: seq<QKey>, i: nat)
    requires Ready(s, ks) && i < |ks|
    ensures Ready(s, ks[..i]) && ks[i] !in ks[..i]
  {
    forall k | k in ks[..i] ensures k in ks && k != ks[i] {
      var j :| 0 <= j < i && ks[..i][j] == k;
      assert ks[j] == k && ks[j].id != ks[i].id;
    }
  }

  /** At its turn a due key is still in the queue. */
  lemma StillActive(s: Store, env: Env, ks: seq<QKey>, i: nat)
    requires Inv(s) && Ready(s, ks) && i < |ks|
    ensures Inv(ActiveUpTo(s, env, ks, i)) && ks[i] in ActiveUpTo(s, env, ks, i).active
  {
    hide Inv, ActivePass, Ready;
    ReadyAt(s, ks, i);
    ReadyUpTo(s, ks, i);
    ActivePassInv(s, env, ks[..i]);
  }

  lemma VotesLocal(s: Store, s': Store, id: nat)
    requires OfProposal(s.votes, id) == OfProposal(s'.votes, id)
    ensures VotesOf(s, id) == VotesOf(s', id)
  {
    VotersLocal(s, s', id);
    forall a | a in VotesOf(s, id) ensures VotesOf(s, id)[a] == VotesOf(s', id)[a] {
      VotesAreStored(s, id, a);
      VotesAreStored(s', id, a);
      assert OfProposal(s.votes, id)[DKey(id, a)] == OfProposal(s'.votes, id)[DKey(id, a)];
    }
  }

  /** The tally of a proposal in a store that agrees with s on the proposal. */
  lemma TallyAt(s: Store, si: Store, env: Env, k: QKey)
    requires Inv(si) && k in si.active && LocalOf(si, k.id) == LocalOf(s, k.id)
    ensures k.id in s.proposals
    ensures var l, p := LocalOf(ActiveStep(si, env, k.id), k.id), s.proposals[k.id];
            && l.proposal.Some?
            && var o, p' := env.tally(si.world, p, VotesOf(s, k.id)), l.proposal.value;
            && p' == p.(status := p'.status, tally := o.result)
            && (p'.status == Rejected <==> !o.passes) && (o.passes ==> p'.status == Passed || p'.status == Failed)
            && l.deposits == map[]
            && var vs := OfProposal(s.votes, k.id);
            l.votes == if o.err.None? then map[] else map d | d in vs && d.who !in o.err.value :: vs[d]
  {
    hide Inv, ActiveStep;
    VotingAt(si, k);
    VerdictExact(si, env, k);
    VotesAfterTally(si, env, k);
    ActiveStepCloses(si, env, k);
    VotesLocal(s, si, k.id);
    hide OfProposal, EntriesOf, VotesOf;
    SameProposal(si, s, k.id);
    hide Chain, AllUnpack, SettledWorld;
  }
}
