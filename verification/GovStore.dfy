/**
 The keeper operations of x/gov as functions on the store: deposits and votes
 (x/gov/keeper/deposit.go, vote.go), activation and deletion of proposals
 (x/gov/keeper/proposal.go), and the quorum check (x/gov/keeper/tally.go).
 */
module GovStore {
  import opened Options
  import opened GovTypes
  import opened CoinSums
  import opened GovQueue
  import LegacyDec

  /** A panic where cond holds. */
  function HaltIf(s: Store, cond: bool): Store {
    s.(halted := s.halted || cond)
  }

  function Pred(n: nat): nat {
    if n == 0 then 0 else n - 1
  }

  // ---------------------------------------------------------------- deposits and votes

  /** RefundAndDeleteDeposits: every depositor of the proposal gets its deposit back. */
  ghost function RefundDeposits(s: Store, id: nat): Store {
    var ds := OfProposal(s.deposits, id);
    HaltIf(s.(deposits := Without(s.deposits, id),
              world := s.world.(gov := s.world.gov - Sum(ds), accounts := PayBack(s.world.accounts, ds, id))),
           !(Sum(ds) <= s.world.gov))
  }

  /** DeleteAndBurnDeposits: the proposal's deposits leave the gov account and the supply. */
  ghost function BurnDeposits(s: Store, id: nat): Store {
    var ds := OfProposal(s.deposits, id);
    HaltIf(s.(deposits := Without(s.deposits, id),
              world := s.world.(gov := s.world.gov - Sum(ds), supply := s.world.supply - Sum(ds))),
           !(Sum(ds) <= s.world.gov))
  }

  ghost function SettleDeposits(s: Store, id: nat, burn: bool): Store {
    if burn then BurnDeposits(s, id) else RefundDeposits(s, id)
  }

  function VotesOf(s: Store, id: nat): map<Address, Vote> {
    map k | k in s.votes && k.id == id :: k.who := s.votes[k]
  }

  /** The votes a proposal has are those in the store under its id, by voter. */
  lemma VotesAreStored(s: Store, id: nat, who: Address)
    ensures who in VotesOf(s, id) <==> DKey(id, who) in s.votes
    ensures who in VotesOf(s, id) ==> VotesOf(s, id)[who] == s.votes[DKey(id, who)]
  {
    if DKey(id, who) in s.votes { assert DKey(id, who).who == who; }
  }

  function DeleteVotes(s: Store, id: nat): Store {
    s.(votes := Without(s.votes, id))
  }

  /** The votes a tally deletes: all of them, or those before its error. */
  function TalliedVotes(votes: map<DKey, Vote>, id: nat, err: Option<set<Address>>): map<DKey, Vote> {
    match err
    case None => Without(votes, id)
    case Some(deleted) => map k | k in votes && !(k.id == id && k.who in deleted) :: votes[k]
  }

  // ---------------------------------------------------------------- quorum

  datatype QuorumCheck = Reached | NotReached | QuorumError

  /** The total voting power of the voters, or None if looking one of them up fails. */
  ghost function TotalPower(env: Env, w: World, voters: set<Address>): Option<nat> {
    if voters == {} then Some(0) else
      var v :| v in voters;
      PlusPower(env.power(w, v), TotalPower(env, w, voters - {v}))
  }

  function PlusPower(a: Option<nat>, b: Option<nat>): Option<nat> {
    if a.None? || b.None? then None else Some(a.value + b.value)
  }

  lemma PlusPowerSwap(a: Option<nat>, b: Option<nat>, c: Option<nat>)
    ensures PlusPower(a, PlusPower(b, c)) == PlusPower(b, PlusPower(a, c))
  {
  }

  /** HasReachedQuorum: the share of the bonded tokens that voted, against the proposal's quorum. */
  ghost function HasReachedQuorum(env: Env, w: World, p: Proposal, voters: set<Address>): QuorumCheck {
    match env.bonded(w)
    case None => QuorumError
    case Some(bonded) =>
      if bonded == 0 then NotReached
      else
        match TotalPower(env, w, voters)
        case None => QuorumError
        case Some(power) => if Share(power, bonded) >= env.quorum(w, p) then Reached else NotReached
  }

  function Share(power: nat, bonded: nat): int
    requires bonded > 0
  {
    LegacyDec.Quo(power, LegacyDec.FromInt(bonded))
  }

  lemma {:induction false} TotalPowerRemove(env: Env, w: World, voters: set<Address>, v: Address)
    requires v in voters
    ensures TotalPower(env, w, voters) == PlusPower(env.power(w, v), TotalPower(env, w, voters - {v}))
    decreases |voters|
  {
    var x :| x in voters && TotalPower(env, w, voters) == PlusPower(env.power(w, x), TotalPower(env, w, voters - {x}));
    if x != v {
      TotalPowerRemove(env, w, voters - {x}, v);
      TotalPowerRemove(env, w, voters - {v}, x);
      var rest := voters - {x} - {v};
      assert rest == voters - {v} - {x};
      var c := TotalPower(env, w, rest);
      assert TotalPower(env, w, voters - {x}) == PlusPower(env.power(w, v), c);
      assert TotalPower(env, w, voters - {v}) == PlusPower(env.power(w, x), c);
      PlusPowerSwap(env.power(w, x), env.power(w, v), c);
    }
  }

  /** What the voters' powers add up to, in some order. */
  function SumOfPowers(env: Env, w: World, voters: seq<Address>): nat
    requires forall v | v in voters :: env.power(w, v).Some?
  {
    if voters == [] then 0 else env.power(w, voters[0]).value + SumOfPowers(env, w, voters[1..])
  }

  /** The total power is the sum of the voters' powers, each counted once in whatever order, or nothing if one is not found. */
  lemma {:induction false} TotalPowerIsSum(env: Env, w: World, voters: set<Address>, order: seq<Address>)
    requires (forall v :: v in voters <==> v in order) && forall i, j | 0 <= i < j < |order| :: order[i] != order[j]
    ensures TotalPower(env, w, voters) ==
            if forall v | v in order :: env.power(w, v).Some? then Some(SumOfPowers(env, w, order)) else None
    decreases |order|
  {
    if order == [] {
      assert voters == {};
    } else {
      var v, rest := order[0], order[1..];
      assert v in order && forall x | x in order :: x == v || x in rest;
      forall x ensures x in voters - {v} <==> x in rest {
        if x in rest { assert x in order; }
      }
      TotalPowerRemove(env, w, voters, v);
      TotalPowerIsSum(env, w, voters - {v}, rest);
    }
  }

  /**
   The quorum check.  Nothing bonded is never a quorum; an amount of bonded tokens or a voter's
   power that cannot be found is an error; otherwise the total power, in units of 10^-18, over
   the bonded tokens is compared with the required quorum as q, the quotient rounded to 18
   decimals: within half a unit of the last one, up to the digits beyond the 36th.
   */
  lemma QuorumIsShare(env: Env, w: World, p: Proposal, voters: set<Address>) returns (q: int)
    ensures var r, bonded, power := HasReachedQuorum(env, w, p, voters), env.bonded(w), TotalPower(env, w, voters);
            && (r == QuorumError <==> bonded.None? || (bonded.value > 0 && power.None?))
            && (bonded == Some(0) ==> r == NotReached)
            && (bonded.Some? && bonded.value > 0 && power.Some? ==>
                  var off := (q * bonded.value - power.value) * 1_000_000_000_000_000_000;
                  && (r == Reached <==> env.quorum(w, p) <= q)
                  && -500_000_000_000_000_001 * bonded.value <= off <= 500_000_000_000_000_000 * bonded.value
                  && (power.value == bonded.value * 1_000_000_000_000_000_000 ==> q == 1_000_000_000_000_000_000))
  {
    q := 0;
    var bonded, power := env.bonded(w), TotalPower(env, w, voters);
    if bonded.Some? && bonded.value > 0 && power.Some? {
      q := Share(power.value, bonded.value);
      ShareNearest(power.value, bonded.value);
      if power.value == bonded.value * LegacyDec.ONE { ShareOfAll(bonded.value); }
    }
    hide TotalPower, Share;
  }

  lemma ShareNearest(power: nat, bonded: nat)
    requires bonded > 0
    ensures var off := (Share(power, bonded) * bonded - power) * LegacyDec.ONE;
            -(LegacyDec.HALF + 1) * bonded <= off <= LegacyDec.HALF * bonded
  {
    var q, b := Share(power, bonded), bonded * LegacyDec.ONE;
    LegacyDec.QuoNearest(power, b);
    hide Share, LegacyDec.Quo;
    assert q * b - power * LegacyDec.ONE == (q * bonded - power) * LegacyDec.ONE by {
      assert q * (bonded * LegacyDec.ONE) == (q * bonded) * LegacyDec.ONE;
    }
    Scaled((q * bonded - power) * LegacyDec.ONE, bonded);
  }

  /** Both sides of a bound divided by the scale. */
  lemma Scaled(off: int, bonded: nat)
    requires 0 - (LegacyDec.HALF + 1) * (bonded * LegacyDec.ONE) <= off * LegacyDec.ONE <= LegacyDec.HALF * (bonded * LegacyDec.ONE)
    ensures -(LegacyDec.HALF + 1) * bonded <= off <= LegacyDec.HALF * bonded
  {
  }

  /** Everything bonded is a share of exactly one. */
  lemma ShareOfAll(bonded: nat)
    requires bonded > 0
    ensures Share(bonded * LegacyDec.ONE, bonded) == LegacyDec.ONE
  {
    var all: nat := bonded * LegacyDec.ONE;
    LegacyDec.QuoNat(all, all);
    assert all * LegacyDec.ONE * LegacyDec.ONE / all == LegacyDec.ONE * LegacyDec.ONE by {
      LegacyDec.DivLargest(all * LegacyDec.ONE * LegacyDec.ONE, all, LegacyDec.ONE * LegacyDec.ONE);
      LegacyDec.DivBound(all * LegacyDec.ONE * LegacyDec.ONE, all);
    }
    LegacyDec.ChopExact(LegacyDec.ONE);
  }

  /** More voters, each found and with at least as much power, have at least as much together. */
  lemma {:induction false} PowerGrows(env: Env, w: World, w': World, voters: set<Address>, voters': set<Address>)
    requires voters <= voters' && TotalPower(env, w, voters).Some?
    requires forall v | v in voters' :: env.power(w', v).Some?
    requires forall v | v in voters && env.power(w, v).Some? :: env.power(w, v).value <= env.power(w', v).value
    ensures TotalPower(env, w', voters').Some? && TotalPower(env, w, voters).value <= TotalPower(env, w', voters').value
    decreases |voters'|
  {
    if voters' == {} {
      assert voters == {};
    } else {
      var v :| v in voters';
      TotalPowerRemove(env, w', voters', v);
      if v in voters {
        TotalPowerRemove(env, w, voters, v);
      } else {
        assert voters - {v} == voters;
      }
      PowerGrows(env, w, w', voters - {v}, voters' - {v});
    }
  }

  /** Further voters, and more power of those who voted, never lose a quorum that was reached. */
  lemma MorePowerKeepsQuorum(env: Env, w: World, w': World, p: Proposal, voters: set<Address>, voters': set<Address>)
    requires HasReachedQuorum(env, w, p, voters) == Reached
    requires env.bonded(w') == env.bonded(w) && env.quorum(w', p) <= env.quorum(w, p)
    requires voters <= voters' && forall v | v in voters' :: env.power(w', v).Some?
    requires forall v | v in voters && env.power(w, v).Some? :: env.power(w, v).value <= env.power(w', v).value
    ensures HasReachedQuorum(env, w', p, voters') == Reached
  {
    PowerGrows(env, w, w', voters, voters');
    var b := env.bonded(w).value * LegacyDec.ONE;
    LegacyDec.QuoMono(TotalPower(env, w, voters).value, b, TotalPower(env, w', voters').value, b);
    hide TotalPower, LegacyDec.Quo;
  }

  /** Without votes the quorum is reached exactly when tokens are bonded and the required quorum is not positive. */
  lemma NoVotesQuorum(env: Env, w: World, p: Proposal)
    ensures HasReachedQuorum(env, w, p, {}) == Reached <==>
            env.bonded(w).Some? && env.bonded(w).value > 0 && env.quorum(w, p) <= 0
  {
    if env.bonded(w).Some? && env.bonded(w).value > 0 {
      assert LegacyDec.Quo(0, LegacyDec.FromInt(env.bonded(w).value)) == 0;
    }
  }

  // ---------------------------------------------------------------- activation and deletion

  /** GetMinDeposit: the floor while no minimum was ever set. */
  function RequiredDeposit(s: Store): Coins {
    if s.minDeposit.value == multiset{} then s.params.depositFloor else s.minDeposit.value
  }

  function VotingProposal(p: Proposal, now: Time, votingPeriod: Duration): Proposal {
    p.(status := VotingPeriod, votingStart := Some(now), votingEnd := Some(now + votingPeriod))
  }

  /** ActivateVotingPeriod: out of the inactive queue, into the active and quorum-check queues. */
  function Activate(s: Store, env: Env, now: Time, id: nat): Store {
    if id !in s.proposals then HaltIf(s, true) else
      var p := s.proposals[id];
      HaltIf(
        s.(proposals := s.proposals[id := VotingProposal(p, now, s.params.votingPeriod)],
           inactive := s.inactive - {QKey(p.depositEnd, id)},
           nInactive := Pred(s.nInactive),
           active := s.active + {QKey(now + s.params.votingPeriod, id)},
           nActive := s.nActive + 1,
           quorum := if s.params.checkCount == 0 then s.quorum
                     else s.quorum[QKey(now + s.params.quorumTimeout, id) :=
                                   QuorumEntry(now + s.params.quorumTimeout, s.params.checkCount, 0)],
           minDeposit := env.throttle(s.params, s.minDeposit, s.nActive + 1, false, now)),
        s.nInactive == 0)
  }

  /** The callback of DeleteProposal on the quorum-check entries: it stops at the first one of the proposal. */
  function DropFirstEntry(s: Store, ks: seq<QKey>, id: nat): Store
    decreases |ks|
  {
    if ks == [] then s
    else if ks[0].id !in s.proposals then HaltIf(s, true)
    else if ks[0].id == id then s.(quorum := s.quorum - {ks[0]})
    else DropFirstEntry(s, ks[1..], id)
  }

  /** The traces of a voting period; the entries looked at are those up to the start of the voting. */
  ghost function DeleteVoting(s: Store, id: nat): Store
    requires id in s.proposals && s.proposals[id].votingEnd.Some?
  {
    var p := s.proposals[id];
    var s1 := s.(active := s.active - {QKey(p.votingEnd.value, id)});
    if p.votingStart.None? then HaltIf(s1, true)
    else DropFirstEntry(s1, DueKeys(s1.quorum.Keys, p.votingStart.value), id)
  }

  /** DeleteProposal. */
  ghost function DeleteProposal(s: Store, id: nat): Store {
    if id !in s.proposals then HaltIf(s, true)
    else
      var p := s.proposals[id];
      var s1 := s.(inactive := s.inactive - {QKey(p.depositEnd, id)});
      var s2 := if p.votingEnd.None? then s1 else DeleteVoting(s1, id);
      s2.(proposals := s2.proposals - {id})
  }

  lemma {:induction false} DropFirstEntryKeeps(s: Store, ks: seq<QKey>, id: nat)
    ensures var s' := DropFirstEntry(s, ks, id);
            && s' == s.(quorum := s'.quorum, halted := s'.halted)
            && s'.quorum.Keys <= s.quorum.Keys
            && forall k | k in s.quorum && k.id != id :: k in s'.quorum && s'.quorum[k] == s.quorum[k]
    decreases |ks|
  {
    if ks != [] && ks[0].id in s.proposals && ks[0].id != id { DropFirstEntryKeeps(s, ks[1..], id); }
  }

  /** Deleting a proposal concerns the proposals and the queues only, and no entry of another proposal. */
  lemma DeleteKeeps(s: Store, id: nat)
    ensures var s' := DeleteProposal(s, id);
            && s' == s.(proposals := s'.proposals, inactive := s'.inactive, active := s'.active,
                        quorum := s'.quorum, halted := s'.halted)
            && s'.proposals == s.proposals - {id}
            && s'.quorum.Keys <= s.quorum.Keys
            && forall k | k in s.quorum && k.id != id :: k in s'.quorum && s'.quorum[k] == s.quorum[k]
  {
    hide DueKeys, DropFirstEntry;
    if id in s.proposals && s.proposals[id].votingEnd.Some? && s.proposals[id].votingStart.Some? {
      var p := s.proposals[id];
      var s1 := s.(inactive := s.inactive - {QKey(p.depositEnd, id)}, active := s.active - {QKey(p.votingEnd.value, id)});
      DropFirstEntryKeeps(s1, DueKeys(s1.quorum.Keys, p.votingStart.value), id);
    }
  }
}
