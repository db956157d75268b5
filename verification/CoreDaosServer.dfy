/** The message server of x/coredaos, which works on proposals through the gov keeper. */
module CoreDaosServer {
  import opened Options
  import opened GovTypes
  import opened CoinSums
  import opened GovStore
  import opened GovInvariants
  import opened GovKeeper
  import CoreDaos

  class MsgServer {
    const govKeeper: Keeper

    constructor (govKeeper: Keeper)
      ensures this.govKeeper == govKeeper
    {
      this.govKeeper := govKeeper;
    }

    method AnnotateProposal(annotator: Address, id: nat, annotation: string, overwrite: bool) returns (err: Option<TxError>)
      modifies govKeeper`proposals
      ensures match CoreDaos.Annotate(old(govKeeper.Abs()), annotator, id, annotation, overwrite)
              case Done(s) => err == None && govKeeper.Abs() == s
              case Refused(e) => err == Some(e) && govKeeper.Abs() == old(govKeeper.Abs())
    {
      var dao := govKeeper.dao;
      if dao.steering == "" { return Some(FunctionDisabled); }
      if annotator != dao.steering { return Some(InvalidSigner); }
      if id !in govKeeper.proposals { return Some(UnknownProposal); }
      var p := govKeeper.proposals[id];
      if p.status != VotingPeriod { return Some(InactiveProposal); }
      if p.annotation != "" && !overwrite { return Some(AnnotationPresent); }
      govKeeper.SetProposal(id, p.(annotation := annotation));
      return None;
    }

    method EndorseProposal(endorser: Address, id: nat) returns (err: Option<TxError>)
      modifies govKeeper`proposals
      ensures match CoreDaos.Endorse(old(govKeeper.Abs()), endorser, id)
              case Done(s) => err == None && govKeeper.Abs() == s
              case Refused(e) => err == Some(e) && govKeeper.Abs() == old(govKeeper.Abs())
    {
      var dao := govKeeper.dao;
      if dao.steering == "" { return Some(FunctionDisabled); }
      if endorser != dao.steering { return Some(InvalidSigner); }
      if id !in govKeeper.proposals { return Some(UnknownProposal); }
      var p := govKeeper.proposals[id];
      if p.status != VotingPeriod { return Some(InactiveProposal); }
      if p.endorsed { return Some(AlreadyEndorsed); }
      govKeeper.SetProposal(id, p.(endorsed := true));
      return None;
    }

    method ExtendVotingPeriod(extender: Address, id: nat) returns (err: Option<TxError>)
      modifies govKeeper`proposals, govKeeper`active, govKeeper`halted
      ensures match CoreDaos.Extend(old(govKeeper.Abs()), extender, id)
              case Done(s) => err == None && govKeeper.Abs() == s
              case Refused(e) => err == Some(e) && govKeeper.Abs() == old(govKeeper.Abs())
    {
      var dao := govKeeper.dao;
      if dao.steering == "" && dao.oversight == "" { return Some(FunctionDisabled); }
      if extender != dao.steering && extender != dao.oversight { return Some(InvalidSigner); }
      if id !in govKeeper.proposals { return Some(UnknownProposal); }
      var p := govKeeper.proposals[id];
      if p.status != VotingPeriod { return Some(InactiveProposal); }
      if p.timesExtended >= dao.limit { return Some(ExtensionsExhausted); }
      if p.votingEnd.None? {
        govKeeper.halted := true;
        return None;
      }
      var newEnd := p.votingEnd.value + dao.duration;
      govKeeper.active := govKeeper.active - {QKey(p.votingEnd.value, id)};
      govKeeper.active := govKeeper.active + {QKey(newEnd, id)};
      govKeeper.SetProposal(id, p.(votingEnd := Some(newEnd), timesExtended := p.timesExtended + 1));
      return None;
    }

    method VetoProposal(env: Env, now: Time, vetoer: Address, id: nat, burnDeposit: bool) returns (err: Option<TxError>)
      modifies govKeeper
      ensures match CoreDaos.Veto(old(govKeeper.Abs()), env, now, vetoer, id, burnDeposit)
              case Done(s) => err == None && govKeeper.Abs() == s
              case Refused(e) => err == Some(e) && govKeeper.Abs() == old(govKeeper.Abs())
    {
      var dao := govKeeper.dao;
      if dao.oversight == "" { return Some(FunctionDisabled); }
      if vetoer != dao.oversight { return Some(InvalidSigner); }
      if id !in govKeeper.proposals { return Some(UnknownProposal); }
      var p := govKeeper.proposals[id];
      if p.status != VotingPeriod { return Some(InactiveProposal); }
      hide CoreDaos.VetoStore;
      ApplyVeto(env, now, id, p, burnDeposit);
      return None;
    }

    /** The part of VetoProposal behind the guards. */
    method ApplyVeto(env: Env, now: Time, id: nat, proposal: Proposal, burnDeposit: bool)
      requires id in govKeeper.proposals && govKeeper.proposals[id] == proposal
      modifies govKeeper
      ensures govKeeper.Abs() == CoreDaos.VetoStore(old(govKeeper.Abs()), env, now, id, burnDeposit)
    {
      hide SettleDeposits;
      if proposal.votingEnd.None? {
        govKeeper.halted := true;
        return;
      }
      govKeeper.SettleDeposits(id, burnDeposit);
      MarkVetoed(id, proposal.(status := Vetoed, tally := TallyResult(0, 0, 0)));
      TakeFromVoting(env, now, id, proposal.votingEnd.value);
    }

    method MarkVetoed(id: nat, p: Proposal)
      modifies govKeeper`proposals, govKeeper`votes
      ensures govKeeper.Abs() == DeleteVotes(CoreDaos.SetProposal(old(govKeeper.Abs()), id, p), id)
    {
      govKeeper.SetProposal(id, p);
      govKeeper.DeleteVotes(id);
    }

    method TakeFromVoting(env: Env, now: Time, id: nat, end: Time)
      modifies govKeeper`active, govKeeper`nActive, govKeeper`minDeposit, govKeeper`halted
      ensures var s := old(govKeeper.Abs());
              govKeeper.Abs() ==
              HaltIf(s.(active := s.active - {QKey(end, id)}, nActive := Pred(s.nActive),
                        minDeposit := env.throttle(s.params, s.minDeposit, Pred(s.nActive), true, now)),
                     s.nActive == 0)
    {
      govKeeper.active := govKeeper.active - {QKey(end, id)};
      govKeeper.DecrementActive();
      govKeeper.minDeposit := env.throttle(govKeeper.params, govKeeper.minDeposit, govKeeper.nActive, true, now);
    }
  }
}
