/**
 How often a proposal is checked for quorum.  An entry carries the checks it still has;
 every check uses one up, a late quorum ends them, and nothing gives a proposal new ones.
 */
module GovChecks {
  import opened Options
  import opened GovTypes
  import opened CoinSums
  import opened GovQueue
  import opened GovStore
  import opened GovEndBlock
  import opened GovInvariants
  import opened GovBlock
  import opened GovScan
  import opened GovFate

  /** The checks that are still to come for a proposal's entries, of which there is at most one. */
  ghost function ChecksLeft(m: map<QKey, QuorumEntry>): nat {
    if m == map[] then 0 else
      var k :| k in m;
      if m[k].done <= m[k].count then m[k].count - m[k].done + 1 else 0
  }

  lemma ChecksLeftOne(m: map<QKey, QuorumEntry>, k: QKey)
    requires m.Keys == {k} && m[k].done <= m[k].count
    ensures ChecksLeft(m) == m[k].count - m[k].done + 1
  {
    var x :| x in m && ChecksLeft(m) == if m[x].done <= m[x].count then m[x].count - m[x].done + 1 else 0;
    assert x in m.Keys;
  }

  /** A check of the proposal is due. */
  ghost predicate CheckDue(s: Store, now: Time, id: nat) {
    exists k :: k in s.quorum && k.id == id && k.time <= now
  }

  function One(b: bool): nat {
    if b then 1 else 0
  }

  lemma EntriesAreOne(s: Store, k: QKey)
    requires QuorumQueue(s) && k in s.quorum
    ensures EntriesOf(s.quorum, k.id) == map[k := s.quorum[k]]
    ensures s.quorum[k].done <= s.quorum[k].count
  {
    OneEntry(s, k);
    assert EntryOk(k.time, s.quorum[k], s.proposals[k.id]);
  }

  lemma EffectEntries(s: Store, now: Time, k: QKey, eff: QuorumEffect)
    requires QuorumQueue(s) && k in s.quorum && EntryHasProposal(s, k)
    requires eff.Rescheduled? ==> s.quorum[k].done < s.quorum[k].count
    ensures var m := EntriesOf(ApplyEffect(s, now, k, eff).quorum, k.id);
            && ChecksLeft(m) + 1 <= ChecksLeft(EntriesOf(s.quorum, k.id))
            && (eff == Extended ==> m == map[])
  {
    EntriesAreOne(s, k);
    ChecksLeftOne(EntriesOf(s.quorum, k.id), k);
    EntriesMinus(s.quorum, k);
    if eff.Rescheduled? {
      var e := s.quorum[k].(done := s.quorum[k].done + 1);
      EntriesPlus(s.quorum - {k}, QKey(eff.next, k.id), e);
      ChecksLeftOne(map[QKey(eff.next, k.id) := e], QKey(eff.next, k.id));
      assert EntriesOf(s.quorum, k.id) - {k} == map[];
    }
    hide EntriesOf, ChecksLeft, QuorumQueue;
  }

  predicate EntryHasProposal(s: Store, k: QKey) {
    k.id in s.proposals && s.proposals[k.id].votingEnd.Some?
  }

  /** A due check is used up by the quorum pass; a late quorum leaves no entry; without a due check nothing happens. */
  lemma EntriesAfterChecks(s: Store, env: Env, now: Time, id: nat)
    requires Inv(s) && id in s.proposals
    ensures var m, m' := EntriesOf(s.quorum, id), LocalOf(AfterQuorum(s, env, now), id).entries;
            && ChecksLeft(m') + One(CheckDue(s, now, id)) <= ChecksLeft(m)
            && (m == map[] ==> m' == map[])
            && (LateQuorum(s, env, now, id) ==> CheckDue(s, now, id) && m' == map[])
  {
    var ks := DueKeys(s.quorum.Keys, now);
    DueQuorum(s, now);
    hide Sorted, Due, EffectOf, QuorumPass, OfProposal, EntriesOf, ChecksLeft;
    if k :| k in ks && k.id == id {
      EntryHasEnd(s, k);
      EffectIsOk(s, env, now, k);
      OneEntry(s, k);
      EntriesAreOne(s, k);
      QuorumPassAt(s, env, now, ks, k);
      hide Inv, DistinctIds;
      EffectEntries(s, now, k, EffectOf(s, env, now, k));
      hide ApplyEffect;
      assert LateQuorum(s, env, now, id) ==> EffectOf(s, env, now, k) == Extended;
    } else {
      hide Inv, DistinctIds;
      QuorumPassFrame(s, env, now, ks, id);
      assert !CheckDue(s, now, id) && !LateQuorum(s, env, now, id);
    }
  }
}
