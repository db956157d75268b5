/**
 What one EndBlock does, proposal by proposal.  A pass is a fold of steps over the due
 keys; here it is shown to keep the invariants, to leave every other proposal alone, and
 to do to each due proposal what one step alone would do to it.
 */
module GovBlock {
  import opened Options
  import opened GovTypes
  import opened CoinSums
  import opened GovQueue
  import opened GovStore
  import opened GovEndBlock
  import opened GovInvariants

  /** The part of the store that belongs to one proposal. */
  datatype Local = Local(
    proposal: Option<Proposal>,
    entries: map<QKey, QuorumEntry>,
    votes: map<DKey, Vote>,
    deposits: map<DKey, Coins>)

  function EntriesOf(q: map<QKey, QuorumEntry>, id: nat): map<QKey, QuorumEntry> {
    map k | k in q && k.id == id :: q[k]
  }

  function ProposalOf(ps: map<nat, Proposal>, id: nat): Option<Proposal> {
    if id in ps then Some(ps[id]) else None
  }

  function LocalOf(s: Store, id: nat): Local {
    Local(ProposalOf(s.proposals, id), EntriesOf(s.quorum, id), OfProposal(s.votes, id), OfProposal(s.deposits, id))
  }

  ghost predicate Distinct(ks: seq<QKey>) {
    forall i, j | 0 <= i < j < |ks| :: ks[i].Before(ks[j])
  }

  /** In the inactive and active queues, and in a due list, an id occurs once. */
  ghost predicate DistinctIds(ks: seq<QKey>) {
    forall i, j | 0 <= i < j < |ks| :: ks[i].id != ks[j].id
  }

  lemma IndexedIdsDistinct(q: set<QKey>, ks: seq<QKey>)
    requires Distinct(ks) && (forall k | k in ks :: k in q)
    requires forall k, k' | k in q && k' in q && k.id == k'.id :: k == k'
    ensures DistinctIds(ks)
  {
    forall i, j | 0 <= i < j < |ks| ensures ks[i].id != ks[j].id {
      assert ks[i] in ks && ks[j] in ks && ks[i].Before(ks[j]);
    }
  }

  // ---------------------------------------------------------------- frames

  lemma SettleFrame(s: Store, id: nat, burn: bool, other: nat)
    requires id != other
    ensures LocalOf(SettleDeposits(s, id, burn), other) == LocalOf(s, other)
    ensures SettleDeposits(s, id, burn).params == s.params
  {
    hide Sum, PayBack;
    OfProposalFrame(s.deposits, other, id);
  }

  lemma ActivateFrame(s: Store, env: Env, now: Time, id: nat, other: nat)
    requires id != other
    ensures LocalOf(Activate(s, env, now, id), other) == LocalOf(s, other)
    ensures Activate(s, env, now, id).params == s.params
  {
  }

  lemma InactiveStepFrame(s: Store, env: Env, now: Time, id: nat, other: nat)
    requires id != other
    ensures LocalOf(InactiveStep(s, env, now, id), other) == LocalOf(s, other)
    ensures InactiveStep(s, env, now, id).params == s.params
  {
    hide SettleDeposits, MeetsDeposit, EntriesOf, OfProposal;
    if id in s.proposals {
      ActivateFrame(s, env, now, id, other);
      DeleteFrame(s, id, other);
      SettleFrame(DeleteProposal(s, id), id, s.params.burnPrevote, other);
    }
    hide Activate, DeleteProposal, LocalOf;
  }

  lemma DeleteFrame(s: Store, id: nat, other: nat)
    requires id != other
    ensures LocalOf(DeleteProposal(s, id), other) == LocalOf(s, other)
    ensures DeleteProposal(s, id).params == s.params
  {
    DeleteKeeps(s, id);
    hide DeleteProposal, OfProposal;
    SameEntries(s.quorum, DeleteProposal(s, id).quorum, id, other);
  }

  lemma SameEntries(q: map<QKey, QuorumEntry>, q': map<QKey, QuorumEntry>, id: nat, other: nat)
    requires id != other && q'.Keys <= q.Keys
    requires forall k | k in q && k.id != id :: k in q' && q'[k] == q[k]
    ensures EntriesOf(q', other) == EntriesOf(q, other)
  {
  }

  lemma EffectFrame(s: Store, now: Time, k: QKey, eff: QuorumEffect, other: nat)
    requires k in s.quorum && k.id in s.proposals && s.proposals[k.id].votingEnd.Some?
    requires k.id != other
    ensures LocalOf(ApplyEffect(s, now, k, eff), other) == LocalOf(s, other)
    ensures ApplyEffect(s, now, k, eff).params == s.params && ApplyEffect(s, now, k, eff).world == s.world
  {
  }

  lemma QuorumStepFrame(s: Store, env: Env, now: Time, k: QKey, other: nat)
    requires k.id != other
    ensures LocalOf(QuorumStep(s, env, now, k), other) == LocalOf(s, other)
    ensures QuorumStep(s, env, now, k).params == s.params && QuorumStep(s, env, now, k).world == s.world
  {
    hide EffectOf, ApplyEffect;
    if k in s.quorum && k.id in s.proposals && s.proposals[k.id].votingEnd.Some? {
      EffectFrame(s, now, k, EffectOf(s, env, now, k), other);
    }
  }

  lemma TalliedVotesFrame(votes: map<DKey, Vote>, id: nat, err: Option<set<Address>>, other: nat)
    requires id != other
    ensures OfProposal(TalliedVotes(votes, id, err), other) == OfProposal(votes, other)
  {
  }

  lemma ActiveStepFrame(s: Store, env: Env, id: nat, other: nat)
    requires id != other
    ensures LocalOf(ActiveStep(s, env, id), other) == LocalOf(s, other)
    ensures ActiveStep(s, env, id).params == s.params && ActiveStep(s, env, id).quorum == s.quorum
  {
    hide SettleDeposits, Verdict, VotesOf, TalliedVotes, OfProposal;
    if id in s.proposals && s.proposals[id].votingEnd.Some? {
      var o := env.tally(s.world, s.proposals[id], VotesOf(s, id));
      TalliedVotesFrame(s.votes, id, o.err, other);
      SettleFrame(s.(votes := TalliedVotes(s.votes, id, o.err)), id, o.burn, other);
      SettleKeeps(s.(votes := TalliedVotes(s.votes, id, o.err)), id, o.burn);
    }
  }

  lemma SettleKeeps(s: Store, id: nat, burn: bool)
    ensures var s' := SettleDeposits(s, id, burn);
            s' == s.(deposits := s'.deposits, world := s'.world, halted := s'.halted)
  {
    hide Sum, PayBack;
  }

  // ---------------------------------------------------------------- the inactive pass

  lemma {:induction false} InactivePassInv(s: Store, env: Env, now: Time, ks: seq<QKey>)
    requires Inv(s) && DistinctIds(ks) && forall k | k in ks :: k in s.inactive
    ensures Inv(InactivePass(s, env, now, ks))
    ensures InactivePass(s, env, now, ks).inactive == s.inactive - (set k | k in ks)
    decreases |ks|
  {
    hide Inv, InactiveStep;
    if ks != [] {
      InactiveStepInv(s, env, now, ks[0]);
      var s1 := InactiveStep(s, env, now, ks[0].id);
      forall k | k in ks[1..] ensures k in s1.inactive {
        assert k != ks[0];
      }
      InactivePassInv(s1, env, now, ks[1..]);
      assert (set k | k in ks) == (set k | k in ks[1..]) + {ks[0]};
    }
  }

  lemma {:induction false} InactivePassFrame(s: Store, env: Env, now: Time, ks: seq<QKey>, id: nat)
    requires forall k | k in ks :: k.id != id
    ensures LocalOf(InactivePass(s, env, now, ks), id) == LocalOf(s, id)
    ensures InactivePass(s, env, now, ks).params == s.params
    decreases |ks|
  {
    hide InactiveStep, LocalOf;
    if ks != [] {
      InactiveStepFrame(s, env, now, ks[0].id, id);
      InactivePassFrame(InactiveStep(s, env, now, ks[0].id), env, now, ks[1..], id);
    }
  }

  lemma InactivePassSplit(s: Store, env: Env, now: Time, a: seq<QKey>, b: seq<QKey>)
    ensures InactivePass(s, env, now, a + b) == InactivePass(InactivePass(s, env, now, a), env, now, b)
    decreases |a|
  {
    hide InactiveStep;
    if a == [] {
      assert a + b == b;
    } else {
      InactivePassSplit(InactiveStep(s, env, now, a[0].id), env, now, a[1..], b);
      assert (a + b)[1..] == a[1..] + b;
    }
  }

  /** The store the pass has reached when it comes to its i-th key. */
  ghost function InactiveUpTo(s: Store, env: Env, now: Time, ks: seq<QKey>, i: nat): Store
    requires i <= |ks|
  {
    InactivePass(s, env, now, ks[..i])
  }

  /** The pass does to its i-th proposal what the step at its turn does, and finds it there as it was. */
  lemma InactivePassTurn(s: Store, env: Env, now: Time, ks: seq<QKey>, i: nat)
    requires DistinctIds(ks) && i < |ks|
    ensures var id, si := ks[i].id, InactiveUpTo(s, env, now, ks, i);
            && LocalOf(si, id) == LocalOf(s, id) && si.params == s.params
            && LocalOf(InactivePass(s, env, now, ks), id) == LocalOf(InactiveStep(si, env, now, id), id)
  {
    hide InactiveStep, LocalOf;
    var id := ks[i].id;
    InactivePassFrame(s, env, now, ks[..i], id);
    var si := InactivePass(s, env, now, ks[..i]);
    assert ks[..i] + ks[i..] == ks && ks[i..][1..] == ks[i + 1..];
    InactivePassSplit(s, env, now, ks[..i], ks[i..]);
    assert InactivePass(si, env, now, ks[i..]) == InactivePass(InactiveStep(si, env, now, id), env, now, ks[i + 1..]);
    InactivePassFrame(InactiveStep(si, env, now, id), env, now, ks[i + 1..], id);
  }

  // ---------------------------------------------------------------- the quorum pass

  lemma {:induction false} QuorumPassInv(s: Store, env: Env, now: Time, ks: seq<QKey>)
    requires Inv(s) && PositiveQuorum(env) && DistinctIds(ks)
    requires forall k | k in ks :: k in s.quorum && k.time <= now
    requires forall k | k in s.quorum && k !in ks :: k.time > now
    ensures var s' := QuorumPass(s, env, now, ks);
            Inv(s') && (forall k | k in s'.quorum :: k.time > now) && s'.world == s.world && s'.params == s.params
    decreases |ks|
  {
    hide Inv, QuorumStep;
    if ks != [] {
      QuorumStepInv(s, env, now, ks[0]);
      QuorumStepKeys(s, env, now, ks[0]);
      var s1 := QuorumStep(s, env, now, ks[0]);
      forall k | k in ks[1..] ensures k in s1.quorum && k.time <= now {
        assert k in ks && k.id != ks[0].id;
      }
      forall k | k in s1.quorum && k !in ks[1..] ensures k.time > now {
        if k in s.quorum && k != ks[0] { assert k !in ks; }
      }
      QuorumPassInv(s1, env, now, ks[1..]);
    }
  }

  lemma EffectKeys(s: Store, now: Time, k: QKey, eff: QuorumEffect)
    requires k in s.quorum && k.id in s.proposals && s.proposals[k.id].votingEnd.Some? && EffectOk(s, now, k, eff)
    ensures var s' := ApplyEffect(s, now, k, eff);
            && s'.world == s.world && s'.params == s.params
            && (forall x | x in s'.quorum :: (x in s.quorum && x != k) || x.time > now)
            && (forall x | x in s.quorum && x.id != k.id :: x in s'.quorum)
  {
  }

  /** A step takes its key away; what it puts in lies after now; other proposals' keys stay. */
  lemma QuorumStepKeys(s: Store, env: Env, now: Time, k: QKey)
    requires Inv(s) && k in s.quorum && k.time <= now
    ensures var s' := QuorumStep(s, env, now, k);
            && s'.world == s.world && s'.params == s.params
            && (forall x | x in s'.quorum :: (x in s.quorum && x != k) || x.time > now)
            && (forall x | x in s.quorum && x.id != k.id :: x in s'.quorum)
  {
    hide EffectOf, ApplyEffect, EffectOk, Queues, Records, VotesOk;
    EntryHasEnd(s, k);
    EffectIsOk(s, env, now, k);
    EffectKeys(s, now, k, EffectOf(s, env, now, k));
  }

  lemma {:induction false} QuorumPassFrame(s: Store, env: Env, now: Time, ks: seq<QKey>, id: nat)
    requires forall k | k in ks :: k.id != id
    ensures LocalOf(QuorumPass(s, env, now, ks), id) == LocalOf(s, id)
    ensures QuorumPass(s, env, now, ks).params == s.params && QuorumPass(s, env, now, ks).world == s.world
    decreases |ks|
  {
    hide QuorumStep, LocalOf;
    if ks != [] {
      QuorumStepFrame(s, env, now, ks[0], id);
      QuorumPassFrame(QuorumStep(s, env, now, ks[0]), env, now, ks[1..], id);
    }
  }

  lemma VotersLocal(s: Store, s': Store, id: nat)
    requires OfProposal(s.votes, id) == OfProposal(s'.votes, id)
    ensures VotersOf(s, id) == VotersOf(s', id)
  {
    forall a ensures a in VotersOf(s, id) <==> a in VotersOf(s', id) {
      assert a in VotersOf(s, id) <==> DKey(id, a) in OfProposal(s.votes, id);
      assert a in VotersOf(s', id) <==> DKey(id, a) in OfProposal(s'.votes, id);
    }
  }

  lemma EntryLocal(s: Store, s': Store, k: QKey)
    requires EntriesOf(s.quorum, k.id) == EntriesOf(s'.quorum, k.id)
    ensures k in s.quorum <==> k in s'.quorum
    ensures k in s.quorum ==> s.quorum[k] == s'.quorum[k]
  {
    assert k in s.quorum <==> k in EntriesOf(s.quorum, k.id);
    assert k in s'.quorum <==> k in EntriesOf(s'.quorum, k.id);
  }

  /** A quorum check looks only at its own proposal, the world and the parameters. */
  lemma EffectLocal(s: Store, s': Store, env: Env, now: Time, k: QKey)
    requires k in s.quorum && k.id in s.proposals && s.proposals[k.id].votingEnd.Some?
    requires LocalOf(s, k.id) == LocalOf(s', k.id) && s.world == s'.world && s.params == s'.params
    ensures k in s'.quorum && k.id in s'.proposals && s'.proposals[k.id].votingEnd.Some?
    ensures EffectOf(s', env, now, k) == EffectOf(s, env, now, k)
    ensures LocalOf(ApplyEffect(s', now, k, EffectOf(s', env, now, k)), k.id) ==
            LocalOf(ApplyEffect(s, now, k, EffectOf(s, env, now, k)), k.id)
  {
    hide HasReachedQuorum, NextCheck, VotersOf, EntriesOf, OfProposal;
    EntryLocal(s, s', k);
    VotersLocal(s, s', k.id);
    assert ProposalOf(s.proposals, k.id) == ProposalOf(s'.proposals, k.id);
    assert EffectOf(s', env, now, k) == EffectOf(s, env, now, k);
    hide EffectOf, LocalOf;
    ApplyLocal(s, s', now, k, EffectOf(s, env, now, k));
  }

  lemma ApplyLocal(s: Store, s': Store, now: Time, k: QKey, eff: QuorumEffect)
    requires k in s.quorum && k.id in s.proposals && s.proposals[k.id].votingEnd.Some?
    requires k in s'.quorum && k.id in s'.proposals && s'.proposals[k.id].votingEnd.Some?
    requires LocalOf(s, k.id) == LocalOf(s', k.id) && s.params == s'.params
    ensures LocalOf(ApplyEffect(s', now, k, eff), k.id) == LocalOf(ApplyEffect(s, now, k, eff), k.id)
  {
    EntryLocal(s, s', k);
    var a, b := ApplyEffect(s, now, k, eff), ApplyEffect(s', now, k, eff);
    assert ProposalOf(s.proposals, k.id) == ProposalOf(s'.proposals, k.id);
    EntriesMinus(s.quorum, k);
    EntriesMinus(s'.quorum, k);
    hide OfProposal;
    if eff.Rescheduled? {
      EntriesPlus(s.quorum - {k}, QKey(eff.next, k.id), s.quorum[k].(done := s.quorum[k].done + 1));
      EntriesPlus(s'.quorum - {k}, QKey(eff.next, k.id), s.quorum[k].(done := s.quorum[k].done + 1));
    }
    hide EntriesOf;
  }

  lemma EntriesMinus(q: map<QKey, QuorumEntry>, k: QKey)
    ensures EntriesOf(q - {k}, k.id) == EntriesOf(q, k.id) - {k}
  {
  }

  lemma EntriesPlus(q: map<QKey, QuorumEntry>, k: QKey, e: QuorumEntry)
    ensures EntriesOf(q[k := e], k.id) == EntriesOf(q, k.id)[k := e]
  {
  }

  /** The pass does to each due proposal what a check in the initial store would do to it. */
  lemma {:induction false} QuorumPassAt(s: Store, env: Env, now: Time, ks: seq<QKey>, k: QKey)
    requires k in ks && DistinctIds(ks)
    requires k in s.quorum && k.id in s.proposals && s.proposals[k.id].votingEnd.Some?
    ensures LocalOf(QuorumPass(s, env, now, ks), k.id) ==
            LocalOf(ApplyEffect(s, now, k, EffectOf(s, env, now, k)), k.id)
    decreases |ks|
  {
    hide LocalOf, EffectOf, ApplyEffect;
    if ks[0] == k {
      forall x | x in ks[1..] ensures x.id != k.id {
        var i :| 0 <= i < |ks[1..]| && ks[1..][i] == x;
        assert ks[i + 1] == x;
      }
      QuorumPassFrame(QuorumStep(s, env, now, k), env, now, ks[1..], k.id);
    } else {
      var i :| 0 <= i < |ks| && ks[i] == k;
      assert ks[1..][i - 1] == k && ks[0].id != k.id;
      var s1 := QuorumStep(s, env, now, ks[0]);
      QuorumStepFrame(s, env, now, ks[0], k.id);
      EffectLocal(s, s1, env, now, k);
      QuorumPassAt(s1, env, now, ks[1..], k);
    }
  }

  // ---------------------------------------------------------------- the active pass

  /** A list of active keys without quorum-check entries, each for another proposal. */
  ghost predicate Ready(s: Store, ks: seq<QKey>) {
    && DistinctIds(ks) && (forall k | k in ks :: k in s.active)
    && (forall k, x | k in ks && x in s.quorum :: x.id != k.id)
  }

  lemma TailKeys(ks: seq<QKey>, k: QKey)
    requires DistinctIds(ks) && ks != [] && k in ks[1..]
    ensures k in ks && k.id != ks[0].id
  {
    var i :| 0 <= i < |ks[1..]| && ks[1..][i] == k;
    assert ks[i + 1] == k;
  }

  lemma ReadyShrinks(s: Store, s1: Store, ks: seq<QKey>)
    requires Ready(s, ks) && ks != [] && s1.active == s.active - {ks[0]} && s1.quorum == s.quorum
    ensures Ready(s1, ks[1..])
  {
    forall k | k in ks[1..] ensures k in s1.active && k in ks {
      TailKeys(ks, k);
    }
  }

  lemma ReadyTail(s: Store, env: Env, ks: seq<QKey>)
    requires Inv(s) && ks != [] && Ready(s, ks)
    ensures var s1 := ActiveStep(s, env, ks[0].id);
            && Inv(s1) && s1.active == s.active - {ks[0]} && s1.quorum == s.quorum && s1.params == s.params
            && Ready(s1, ks[1..])
  {
    assert ks[0] in ks;
    hide Inv, ActiveStep, LocalOf;
    ActiveStepInv(s, env, ks[0]);
    ActiveStepFrame(s, env, ks[0].id, ks[0].id + 1);
    hide Ready;
    ReadyShrinks(s, ActiveStep(s, env, ks[0].id), ks);
  }

  lemma {:induction false} ActivePassInv(s: Store, env: Env, ks: seq<QKey>)
    requires Inv(s) && Ready(s, ks)
    ensures var s' := ActivePass(s, env, ks);
            Inv(s') && s'.active == s.active - (set k | k in ks) && s'.quorum == s.quorum && s'.params == s.params
    decreases |ks|
  {
    hide Inv, ActiveStep, Ready;
    if ks != [] {
      ReadyTail(s, env, ks);
      ActivePassInv(ActiveStep(s, env, ks[0].id), env, ks[1..]);
      assert (set k | k in ks) == (set k | k in ks[1..]) + {ks[0]};
    }
  }

  lemma {:induction false} ActivePassFrame(s: Store, env: Env, ks: seq<QKey>, id: nat)
    requires forall k | k in ks :: k.id != id
    ensures LocalOf(ActivePass(s, env, ks), id) == LocalOf(s, id)
    decreases |ks|
  {
    hide ActiveStep, LocalOf;
    if ks != [] {
      ActiveStepFrame(s, env, ks[0].id, id);
      ActivePassFrame(ActiveStep(s, env, ks[0].id), env, ks[1..], id);
    }
  }

  /** A closed proposal without deposits that differs from p at most in its status and tally. */
  predicate ClosedFrom(l: Local, p: Proposal) {
    && l.proposal.Some? && Closed(l.proposal.value.status)
    && l.proposal.value == p.(status := l.proposal.value.status, tally := l.proposal.value.tally)
    && l.deposits == map[]
  }

  lemma ActiveStepCloses(s: Store, env: Env, k: QKey)
    requires Inv(s) && k in s.active
    ensures k.id in s.proposals && ClosedFrom(LocalOf(ActiveStep(s, env, k.id), k.id), s.proposals[k.id])
  {
    VotingAt(s, k);
    ActiveStepShape(s, env, k);
    hide Inv, ActiveStep, Sum;
  }

  lemma ActivePassSplit(s: Store, env: Env, a: seq<QKey>, b: seq<QKey>)
    ensures ActivePass(s, env, a + b) == ActivePass(ActivePass(s, env, a), env, b)
    decreases |a|
  {
    hide ActiveStep;
    if a == [] {
      assert a + b == b;
    } else {
      ActivePassSplit(ActiveStep(s, env, a[0].id), env, a[1..], b);
      assert (a + b)[1..] == a[1..] + b;
    }
  }

  /** The store the pass has reached when it comes to its i-th key. */
  ghost function ActiveUpTo(s: Store, env: Env, ks: seq<QKey>, i: nat): Store
    requires i <= |ks|
  {
    ActivePass(s, env, ks[..i])
  }

  /** The pass does to its i-th proposal what the step at its turn does, and finds it there as it was. */
  lemma ActivePassTurn(s: Store, env: Env, ks: seq<QKey>, i: nat)
    requires DistinctIds(ks) && i < |ks|
    ensures var id, si := ks[i].id, ActiveUpTo(s, env, ks, i);
            && LocalOf(si, id) == LocalOf(s, id)
            && LocalOf(ActivePass(s, env, ks), id) == LocalOf(ActiveStep(si, env, id), id)
  {
    hide ActiveStep, LocalOf;
    var id := ks[i].id;
    ActivePassFrame(s, env, ks[..i], id);
    var si := ActivePass(s, env, ks[..i]);
    assert ks[..i] + ks[i..] == ks && ks[i..][1..] == ks[i + 1..];
    ActivePassSplit(s, env, ks[..i], ks[i..]);
    assert ActivePass(si, env, ks[i..]) == ActivePass(ActiveStep(si, env, id), env, ks[i + 1..]);
    ActivePassFrame(ActiveStep(si, env, id), env, ks[i + 1..], id);
  }

  /** Every proposal on the list is closed, keeps all but its status and tally, and loses its deposits. */
  lemma ActivePassAt(s: Store, env: Env, ks: seq<QKey>, i: nat)
    requires Inv(s) && Ready(s, ks) && i < |ks|
    ensures var id := ks[i].id;
            id in s.proposals && ClosedFrom(LocalOf(ActivePass(s, env, ks), id), s.proposals[id])
  {
    hide Inv, ActiveStep, ClosedFrom, ActivePass;
    ActivePassTurn(s, env, ks, i);
    assert ks[i] in ks;
    forall x | x in ks[..i] ensures x in ks && x.id != ks[i].id {
    }
    ActivePassInv(s, env, ks[..i]);
    var si := ActiveUpTo(s, env, ks, i);
    ActiveStepCloses(si, env, ks[i]);
    assert ProposalOf(si.proposals, ks[i].id) == ProposalOf(s.proposals, ks[i].id);
  }
}
