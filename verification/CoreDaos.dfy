/**
 The messages of the Steering and Oversight DAOs (x/coredaos/keeper/msg_server.go) as
 functions on the governance store.  Guards come in the order of the handlers.
 */
module CoreDaos {
  import opened Options
  import opened GovTypes
  import opened CoinSums
  import opened GovStore
  import opened GovEndBlock
  import opened GovInvariants
  import opened GovBlock
  import opened GovMoney

  /** ValidateBasic of the DAO parameters. */
  predicate DaoParamsOk(d: DaoParams) {
    d.duration > 0
  }

  function SetProposal(s: Store, id: nat, p: Proposal): Store {
    s.(proposals := s.proposals[id := p])
  }

  function Annotate(s: Store, annotator: Address, id: nat, annotation: string, overwrite: bool): Reply {
    if s.dao.steering == "" then Refused(FunctionDisabled)
    else if annotator != s.dao.steering then Refused(InvalidSigner)
    else if id !in s.proposals then Refused(UnknownProposal)
    else if s.proposals[id].status != VotingPeriod then Refused(InactiveProposal)
    else if s.proposals[id].annotation != "" && !overwrite then Refused(AnnotationPresent)
    else Done(SetProposal(s, id, s.proposals[id].(annotation := annotation)))
  }

  function Endorse(s: Store, endorser: Address, id: nat): Reply {
    if s.dao.steering == "" then Refused(FunctionDisabled)
    else if endorser != s.dao.steering then Refused(InvalidSigner)
    else if id !in s.proposals then Refused(UnknownProposal)
    else if s.proposals[id].status != VotingPeriod then Refused(InactiveProposal)
    else if s.proposals[id].endorsed then Refused(AlreadyEndorsed)
    else Done(SetProposal(s, id, s.proposals[id].(endorsed := true)))
  }

  function Extend(s: Store, extender: Address, id: nat): Reply {
    if s.dao.steering == "" && s.dao.oversight == "" then Refused(FunctionDisabled)
    else if extender != s.dao.steering && extender != s.dao.oversight then Refused(InvalidSigner)
    else if id !in s.proposals then Refused(UnknownProposal)
    else
      var p := s.proposals[id];
      if p.status != VotingPeriod then Refused(InactiveProposal)
      else if p.timesExtended >= s.dao.limit then Refused(ExtensionsExhausted)
      else if p.votingEnd.None? then Done(HaltIf(s, true))
      else Done(MoveEnd(s, id, p.(timesExtended := p.timesExtended + 1), p.votingEnd.value + s.dao.duration))
  }

  ghost function Veto(s: Store, env: Env, now: Time, vetoer: Address, id: nat, burn: bool): Reply {
    if s.dao.oversight == "" then Refused(FunctionDisabled)
    else if vetoer != s.dao.oversight then Refused(InvalidSigner)
    else if id !in s.proposals then Refused(UnknownProposal)
    else if s.proposals[id].status != VotingPeriod then Refused(InactiveProposal)
    else Done(VetoStore(s, env, now, id, burn))
  }

  /** The store after a veto: deposits settled, an empty tally, no votes, out of the active queue. */
  ghost function VetoStore(s: Store, env: Env, now: Time, id: nat, burn: bool): Store
    requires id in s.proposals
  {
    if s.proposals[id].votingEnd.None? then HaltIf(s, true)
    else
      var p := s.proposals[id].(status := Vetoed, tally := TallyResult(0, 0, 0));
      var s1 := DeleteVotes(SetProposal(SettleDeposits(s, id, burn), id, p), id);
      HaltIf(s1.(active := s1.active - {QKey(p.votingEnd.value, id)},
                 nActive := Pred(s1.nActive),
                 minDeposit := env.throttle(s1.params, s1.minDeposit, Pred(s1.nActive), true, now)),
             s1.nActive == 0)
  }

  // ---------------------------------------------------------------- invariants

  /** Changing what is no index, no total and no time of an open proposal keeps everything. */
  lemma AnnotationInv(s: Store, id: nat, p: Proposal)
    requires Inv(s) && id in s.proposals
    requires p == s.proposals[id].(annotation := p.annotation, endorsed := p.endorsed, timesExtended := p.timesExtended)
    ensures Inv(SetProposal(s, id, p))
  {
    var s' := SetProposal(s, id, p);
    QueuesUpdated(s, id, p);
    hide Queues, QuorumQueue, Records, VotesOk;
    QuorumUpdated(s, id, s');
    RecordsUpdated(s, id, s');
    VotesUpdated(s, id, s');
  }

  lemma AnnotateInv(s: Store, annotator: Address, id: nat, annotation: string, overwrite: bool)
    requires Inv(s)
    ensures var r := Annotate(s, annotator, id, annotation, overwrite); r.Done? ==> Inv(r.store)
  {
    hide Inv;
    if Annotate(s, annotator, id, annotation, overwrite).Done? {
      AnnotationInv(s, id, s.proposals[id].(annotation := annotation));
    }
  }

  lemma EndorseInv(s: Store, endorser: Address, id: nat)
    requires Inv(s)
    ensures var r := Endorse(s, endorser, id); r.Done? ==> Inv(r.store)
  {
    hide Inv;
    if Endorse(s, endorser, id).Done? {
      AnnotationInv(s, id, s.proposals[id].(endorsed := true));
    }
  }

  lemma MoveEndInv(s: Store, id: nat, end: Time)
    requires Inv(s) && id in s.proposals && s.proposals[id].status == VotingPeriod
    requires s.proposals[id].votingEnd.Some? && s.proposals[id].votingEnd.value <= end
    ensures Inv(MoveEnd(s, id, s.proposals[id], end))
  {
    hide Queues, QuorumQueue, Records, VotesOk, ParamsOk;
    var s' := MoveEnd(s, id, s.proposals[id], end);
    MoveEndQueues(s, id, end);
    QuorumUpdated(s, id, s');
    RecordsUpdated(s, id, s');
    VotesUpdated(s, id, s');
  }

  /** An annotation is accepted from the Steering DAO only, while voting, and replaces another only if asked to. */
  lemma AnnotateExact(s: Store, annotator: Address, id: nat, annotation: string, overwrite: bool)
    ensures var r := Annotate(s, annotator, id, annotation, overwrite);
            && (r.Done? <==>
                  && s.dao.steering != "" && annotator == s.dao.steering
                  && id in s.proposals && s.proposals[id].status == VotingPeriod
                  && (s.proposals[id].annotation == "" || overwrite))
            && (r.Done? ==>
                  && r.store.proposals.Keys == s.proposals.Keys && r.store == s.(proposals := r.store.proposals)
                  && r.store.proposals[id] == s.proposals[id].(annotation := annotation)
                  && forall x | x in s.proposals && x != id :: r.store.proposals[x] == s.proposals[x])
  {
  }

  /** An endorsement is accepted from the Steering DAO only, while voting, and once; it sets the flag and nothing else. */
  lemma EndorseExact(s: Store, endorser: Address, id: nat)
    ensures var r := Endorse(s, endorser, id);
            && (r.Done? <==>
                  && s.dao.steering != "" && endorser == s.dao.steering
                  && id in s.proposals && s.proposals[id].status == VotingPeriod && !s.proposals[id].endorsed)
            && (r.Done? ==> r.store == s.(proposals := s.proposals[id := s.proposals[id].(endorsed := true)]))
  {
  }

  /** The guards that all four messages share, and the error of the first that fails; ok says that the sender is allowed. */
  ghost predicate RefusedFor(r: Reply, s: Store, id: nat, disabled: bool, ok: bool) {
    && (r == Refused(FunctionDisabled) <==> disabled)
    && (r == Refused(InvalidSigner) <==> !disabled && !ok)
    && (r == Refused(UnknownProposal) <==> !disabled && ok && id !in s.proposals)
    && (r == Refused(InactiveProposal) <==> !disabled && ok && id in s.proposals && s.proposals[id].status != VotingPeriod)
  }

  /** Why the DAOs' messages are refused. */
  lemma DaoRefusals(s: Store, env: Env, now: Time, who: Address, id: nat, annotation: string, overwrite: bool, burn: bool)
    ensures var steering, oversight := s.dao.steering, s.dao.oversight;
            && RefusedFor(Annotate(s, who, id, annotation, overwrite), s, id, steering == "", who == steering)
            && RefusedFor(Endorse(s, who, id), s, id, steering == "", who == steering)
            && RefusedFor(Extend(s, who, id), s, id, steering == "" && oversight == "", who == steering || who == oversight)
            && RefusedFor(Veto(s, env, now, who, id, burn), s, id, oversight == "", who == oversight)
    ensures var a, e := Annotate(s, who, id, annotation, overwrite), Endorse(s, who, id);
            var x, v := Extend(s, who, id), Veto(s, env, now, who, id, burn);
            && (a.Refused? && a.error !in {FunctionDisabled, InvalidSigner, UnknownProposal, InactiveProposal} ==> a.error == AnnotationPresent)
            && (e.Refused? && e.error !in {FunctionDisabled, InvalidSigner, UnknownProposal, InactiveProposal} ==> e.error == AlreadyEndorsed)
            && (x.Refused? && x.error !in {FunctionDisabled, InvalidSigner, UnknownProposal, InactiveProposal} ==> x.error == ExtensionsExhausted)
            && (v.Refused? ==> v.error in {FunctionDisabled, InvalidSigner, UnknownProposal, InactiveProposal})
  {
    hide VetoStore, MoveEnd;
  }

  /** The store after a granted extension. */
  function ExtendedStore(s: Store, id: nat, p: Proposal, end: Time): Store
    requires p.votingEnd.Some?
  {
    s.(proposals := s.proposals[id := p.(votingEnd := Some(end), timesExtended := p.timesExtended + 1)],
       active := s.active - {QKey(p.votingEnd.value, id)} + {QKey(end, id)})
  }

  /**
   Extension: granted exactly when the sender is one of the two configured addresses (an unset
   one is the empty string), the proposal is voting and the limit is not reached; then only the
   end, by the configured duration, and the counter of extensions change, and the index follows.
   */
  lemma ExtendExact(s: Store, extender: Address, id: nat)
    requires Inv(s)
    ensures Extend(s, extender, id).Done? <==>
            && !(s.dao.steering == "" && s.dao.oversight == "")
            && (extender == s.dao.steering || extender == s.dao.oversight)
            && id in s.proposals && s.proposals[id].status == VotingPeriod
            && s.proposals[id].timesExtended < s.dao.limit
    ensures Extend(s, extender, id).Done? ==>
            var p := s.proposals[id];
            && p.votingEnd.Some?
            && Extend(s, extender, id).store == ExtendedStore(s, id, p, p.votingEnd.value + s.dao.duration)
            && (DaoParamsOk(s.dao) ==> Inv(Extend(s, extender, id).store))
  {
    hide Inv, ExtendedStore;
    if id in s.proposals && s.proposals[id].status == VotingPeriod {
      VotingAtId(s, id);
      var end := s.proposals[id].votingEnd.value + s.dao.duration;
      MoveEndCounts(s, id, end);
      if DaoParamsOk(s.dao) { ExtendedInv(s, id, end); }
      hide MoveEnd;
    }
  }

  lemma MoveEndCounts(s: Store, id: nat, end: Time)
    requires id in s.proposals && s.proposals[id].votingEnd.Some?
    ensures var p := s.proposals[id];
            MoveEnd(s, id, p.(timesExtended := p.timesExtended + 1), end) == ExtendedStore(s, id, p, end)
  {
  }

  lemma ExtendedInv(s: Store, id: nat, end: Time)
    requires Inv(s) && id in s.proposals && s.proposals[id].status == VotingPeriod
    requires s.proposals[id].votingEnd.Some? && s.proposals[id].votingEnd.value <= end
    ensures Inv(ExtendedStore(s, id, s.proposals[id], end))
  {
    hide Inv;
    var s1, p := MoveEnd(s, id, s.proposals[id], end), s.proposals[id];
    var p' := s1.proposals[id].(timesExtended := p.timesExtended + 1);
    MoveEndInv(s, id, end);
    AnnotationInv(s1, id, p');
    assert ExtendedStore(s, id, p, end) == SetProposal(s1, id, p');
  }

  lemma VotingAtId(s: Store, id: nat)
    requires Inv(s) && id in s.proposals && s.proposals[id].status == VotingPeriod
    ensures s.proposals[id].votingEnd.Some?
    ensures QKey(s.proposals[id].votingEnd.value, id) in s.active
  {
  }

  /** Only the Oversight DAO, while it is set, vetoes, and only voting proposals; then exactly this changes. */
  lemma VetoExact(s: Store, env: Env, now: Time, vetoer: Address, id: nat, burn: bool)
    requires Inv(s)
    ensures var r := Veto(s, env, now, vetoer, id, burn);
            && (r.Done? <==>
                  && s.dao.oversight != "" && vetoer == s.dao.oversight
                  && id in s.proposals && s.proposals[id].status == VotingPeriod)
            && (r.Done? ==>
                  var s', p := r.store, s.proposals[id];
                  && Inv(s') && p.votingEnd.Some?
                  && s' == s.(proposals := s.proposals[id := p.(status := Vetoed, tally := TallyResult(0, 0, 0))],
                              active := s.active - {QKey(p.votingEnd.value, id)}, nActive := s.nActive - 1,
                              minDeposit := env.throttle(s.params, s.minDeposit, s.nActive - 1, true, now),
                              votes := s'.votes, deposits := s'.deposits, world := s'.world, halted := s'.halted)
                  && s'.world == SettleDeposits(s, id, burn).world && s'.halted == (s.halted || Short(s, id))
                  && s'.votes == (map d | d in s.votes && d.id != id :: s.votes[d])
                  && s'.deposits == (map d | d in s.deposits && d.id != id :: s.deposits[d])
                  && forall k | k in s'.active :: k.id != id)
  {
    hide Inv, VetoStore, SettleDeposits, Sum, Without, OfProposal;
    if Veto(s, env, now, vetoer, id, burn).Done? {
      VetoInv(s, env, now, id, burn);
      VetoShape(s, env, now, id, burn);
      NotActive(VetoStore(s, env, now, id, burn), id);
      OtherRecords(s.votes, id);
      OtherRecords(s.deposits, id);
    }
  }

  lemma OtherRecords<V>(m: map<DKey, V>, id: nat)
    ensures Without(m, id) == map d | d in m && d.id != id :: m[d]
  {
  }

  /** A veto settles the deposits exactly and leaves the proposal without votes and out of the active queue. */
  lemma VetoShape(s: Store, env: Env, now: Time, id: nat, burn: bool)
    requires Inv(s) && id in s.proposals && s.proposals[id].status == VotingPeriod
    ensures var s', p := VetoStore(s, env, now, id, burn), s.proposals[id];
            && p.votingEnd.Some?
            && s' == s.(proposals := s.proposals[id := p.(status := Vetoed, tally := TallyResult(0, 0, 0))],
                        active := s.active - {QKey(p.votingEnd.value, id)}, nActive := s.nActive - 1,
                        votes := Without(s.votes, id), deposits := Without(s.deposits, id),
                        world := SettleDeposits(s, id, burn).world,
                        minDeposit := env.throttle(s.params, s.minDeposit, s.nActive - 1, true, now),
                        halted := s.halted || Short(s, id))
  {
    VotingAtId(s, id);
    SettleShape(s, id, burn);
    assert |s.active| > 0;
    hide SettleDeposits, Sum, Without;
  }

  lemma VetoInv(s: Store, env: Env, now: Time, id: nat, burn: bool)
    requires Inv(s) && id in s.proposals && s.proposals[id].status == VotingPeriod
    ensures Inv(VetoStore(s, env, now, id, burn))
  {
    VetoShape(s, env, now, id, burn);
    VotingAtId(s, id);
    hide VetoStore, Sum, OfProposal, AllTimes, Records, IndexesActive, IndexesInactive, QuorumQueue, VotesOk, Without;
    var s', p' := VetoStore(s, env, now, id, burn), s.proposals[id].(status := Vetoed, tally := TallyResult(0, 0, 0));
    QuorumUpdated(s, id, s');
    VotesRemoved(s, id, s');
    ClosedRecords(s, id, s');
    ActiveLeaves(s.active, s.proposals, id, p');
    InactiveUntouched(s.inactive, s.proposals, id, p');
    KnownId(s, id);
    TimesUpdate(s.proposals, s.nextId, id, p');
  }

  lemma VotesRemoved(s: Store, id: nat, s': Store)
    requires VotesOk(s) && s'.votes == Without(s.votes, id) && DiffersAt(s, s', id)
    ensures VotesOk(s')
  {
  }

  /** A veto that does not panic pays out exactly the proposal's deposits; the supply falls by them if they are burnt. */
  lemma VetoMoney(s: Store, env: Env, now: Time, id: nat, burn: bool)
    requires Inv(s) && id in s.proposals && s.proposals[id].status == VotingPeriod
    requires !VetoStore(s, env, now, id, burn).halted
    ensures var s', f := VetoStore(s, env, now, id, burn), SettleFlow(s.proposals[id].totalDeposit, burn);
            Accounts(s, s', f) && (SupplyIsTotal(s.world) ==> Booked(s, s', f))
  {
    VetoShape(s, env, now, id, burn);
    TotalIsOwed(s, id);
    hide VetoStore, Inv, SupplyIsTotal, SettleDeposits, Sum, OfProposal, Without, SettleFlow;
    SettleBalance(s, id, burn);
    SettledFlow(s, VetoStore(s, env, now, id, burn), s.proposals[id].totalDeposit, burn);
  }

  // ---------------------------------------------------------------- after a veto

  /**
   A vetoed proposal keeps its quorum-check entry.  Its due check puts it back into the active
   queue exactly when tokens are bonded, the required quorum is not positive, the check is not
   the first, and now plus the extension is later than the proposal's end.
   */
  lemma VetoedReentersIff(s: Store, env: Env, now: Time, k: QKey)
    requires Inv(s) && k in s.quorum && k.time <= now && s.proposals[k.id].status == Vetoed
    ensures var p := s.proposals[k.id];
            (exists x :: x in QuorumStep(s, env, now, k).active && x.id == k.id) <==>
            && env.bonded(s.world).Some? && env.bonded(s.world).value > 0 && env.quorum(s.world, p) <= 0
            && s.quorum[k].done > 0 && now + s.params.extension > p.votingEnd.value
  {
    EntryHasEnd(s, k);
    EffectIsOk(s, env, now, k);
    VetoedEffect(s, env, now, k);
    hide Inv, EffectOf, HasReachedQuorum, ApplyEffect;
    BackInQueue(s, now, k, EffectOf(s, env, now, k));
  }

  lemma VetoedEffect(s: Store, env: Env, now: Time, k: QKey)
    requires VotesOk(s) && QuorumQueue(s) && k in s.quorum && s.proposals[k.id].status == Vetoed
    ensures var p := s.proposals[k.id];
            EffectOf(s, env, now, k) == Extended <==>
            && env.bonded(s.world).Some? && env.bonded(s.world).value > 0 && env.quorum(s.world, p) <= 0
            && Extends(s, now, s.quorum[k], p)
  {
    assert VotersOf(s, k.id) == {};
    NoVotesQuorum(env, s.world, s.proposals[k.id]);
    hide VotersOf, HasReachedQuorum, NextCheck, Extends, VotesOk;
  }

  lemma BackInQueue(s: Store, now: Time, k: QKey, eff: QuorumEffect)
    requires Inv(s) && k in s.quorum && k.id in s.proposals && s.proposals[k.id].votingEnd.Some?
    requires s.proposals[k.id].status == Vetoed
    ensures (exists x :: x in ApplyEffect(s, now, k, eff).active && x.id == k.id) <==> eff == Extended
  {
    NotActive(s, k.id);
    hide Inv;
    if eff == Extended {
      assert QKey(now + s.params.extension, k.id) in ApplyEffect(s, now, k, eff).active;
    }
  }

  lemma NotActive(s: Store, id: nat)
    requires Inv(s) && id in s.proposals && s.proposals[id].status != VotingPeriod
    ensures forall x | x in s.active :: x.id != id
  {
  }

  /**
   A store in which that happens: a quorum range that reaches down to zero, and a proposal
   vetoed after its first check.  Its second check puts it back among the active proposals.
   */
  lemma VetoedReentersExample() returns (s: Store, env: Env, k: QKey, now: Time)
    ensures Inv(s) && k in s.quorum && k.time <= now && k.id in s.proposals && s.proposals[k.id].status == Vetoed
    ensures !PositiveQuorum(env)
    ensures exists x :: x in QuorumStep(s, env, now, k).active && x.id == k.id
  {
    env := Env((g, m, n, b, t) => m, w => Some(1), (w, a) => Some(0), (w, p) => 0,
               (w, p, vs) => TallyOutcome(false, false, TallyResult(0, 0, 0), 0, None), (w, p, o) => w, (w, m) => None);
    var p := Proposal(Vetoed, multiset{}, 0, Some(0), Some(100), 0, "", false, [], TallyResult(0, 0, 0));
    var w := World(map[], multiset{}, map[], multiset{});
    var g := GovParams(10, 100, 20, 80, 2, false, multiset{"ul"}, 0);
    k, now := QKey(60, 1), 60;
    s := Store(map[1 := p], {}, {}, map[k := QuorumEntry(20, 2, 1)], 0, 0, 2, map[], map[],
               MinDeposit(multiset{}, 0), w, g, DaoParams("", "", 0, 1), false);
    SumEmpty(s.deposits);
    assert !PositiveQuorum(env) by { assert env.quorum(w, p) == 0; }
    VetoedReentersIff(s, env, now, k);
  }
}
