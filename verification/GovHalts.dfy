/** A panic is never undone: once halted, a store stays so through every pass of EndBlock. */
module GovHalts {
  import opened Options
  import opened GovTypes
  import opened GovQueue
  import opened GovStore
  import opened GovEndBlock
  import opened GovInvariants

  lemma InactiveStepSticky(s: Store, env: Env, now: Time, id: nat)
    requires s.halted
    ensures InactiveStep(s, env, now, id).halted
  {
    DeleteSticky(s, id);
    SettleShape(DeleteProposal(s, id), id, s.params.burnPrevote);
    hide SettleDeposits, DeleteProposal, RequiredDeposit;
  }

  lemma {:induction false} InactivePassSticky(s: Store, env: Env, now: Time, ks: seq<QKey>)
    requires s.halted
    ensures InactivePass(s, env, now, ks).halted
    decreases |ks|
  {
    hide InactiveStep;
    if ks != [] {
      InactiveStepSticky(s, env, now, ks[0].id);
      InactivePassSticky(InactiveStep(s, env, now, ks[0].id), env, now, ks[1..]);
    }
  }

  lemma {:induction false} DropSticky(s: Store, ks: seq<QKey>, id: nat)
    requires s.halted
    ensures DropFirstEntry(s, ks, id).halted
    decreases |ks|
  {
    if ks != [] && ks[0].id in s.proposals && ks[0].id != id { DropSticky(s, ks[1..], id); }
  }

  lemma DeleteSticky(s: Store, id: nat)
    requires s.halted
    ensures DeleteProposal(s, id).halted
  {
    hide DueKeys, DropFirstEntry;
    if id in s.proposals && s.proposals[id].votingEnd.Some? && s.proposals[id].votingStart.Some? {
      var p := s.proposals[id];
      var s1 := s.(inactive := s.inactive - {QKey(p.depositEnd, id)}, active := s.active - {QKey(p.votingEnd.value, id)});
      DropSticky(s1, DueKeys(s1.quorum.Keys, p.votingStart.value), id);
    }
  }

  lemma {:induction false} QuorumPassSticky(s: Store, env: Env, now: Time, ks: seq<QKey>)
    requires s.halted
    ensures QuorumPass(s, env, now, ks).halted
    decreases |ks|
  {
    hide EffectOf;
    if ks != [] { QuorumPassSticky(QuorumStep(s, env, now, ks[0]), env, now, ks[1..]); }
  }

  lemma {:induction false} ActivePassSticky(s: Store, env: Env, ks: seq<QKey>)
    requires s.halted
    ensures ActivePass(s, env, ks).halted
    decreases |ks|
  {
    if ks != [] {
      ActiveStepSticky(s, env, ks[0].id);
      hide ActiveStep;
      ActivePassSticky(ActiveStep(s, env, ks[0].id), env, ks[1..]);
    }
  }

  lemma ActiveStepSticky(s: Store, env: Env, id: nat)
    requires s.halted
    ensures ActiveStep(s, env, id).halted
  {
    hide SettleDeposits, Verdict, VotesOf, TalliedVotes;
    if id in s.proposals && s.proposals[id].votingEnd.Some? {
      var o := env.tally(s.world, s.proposals[id], VotesOf(s, id));
      SettleShape(s.(votes := TalliedVotes(s.votes, id, o.err)), id, o.burn);
    }
  }

  lemma EndBlockHalted(s: Store, env: Env, now: Time)
    ensures EndBlock(s, env, now).halted == AfterActive(AfterQuorum(AfterInactive(s, env, now), env, now), env, now).halted
  {
    hide AfterActive, AfterQuorum, AfterInactive;
  }

  /** A block that does not panic has not panicked before any of its passes. */
  lemma PassesNotHalted(s: Store, env: Env, now: Time)
    requires !EndBlock(s, env, now).halted
    ensures var s1 := AfterInactive(s, env, now);
            var s2 := AfterQuorum(s1, env, now);
            !s.halted && !s1.halted && !s2.halted && !AfterActive(s2, env, now).halted
  {
    hide InactivePass, QuorumPass, ActivePass, DueKeys;
    EndBlockHalted(s, env, now);
    var s1 := AfterInactive(s, env, now);
    var s2 := AfterQuorum(s1, env, now);
    if s2.halted { ActivePassSticky(s2, env, DueKeys(s2.active, now)); }
    if s1.halted { QuorumPassSticky(s1, env, now, DueKeys(s1.quorum.Keys, now)); }
    if s.halted { InactivePassSticky(s, env, now, DueKeys(s.inactive, now)); }
  }
}
