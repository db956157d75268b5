/**
 The gov keeper as the program has it: an object whose methods change the store in place,
 iterate over queues they are changing, and break out of loops.  Every method is proved
 against the function on stores that specifies it.
 */
module GovKeeper {
  import opened Options
  import opened GovTypes
  import opened CoinSums
  import opened GovQueue
  import opened GovStore
  import opened GovEndBlock
  import opened GovInvariants
  import opened GovBlock
  import opened GovScan
  import opened GovTx
  import LegacyDec

  // ---------------------------------------------------------------- loops over deposits and votes

  /** Paying d after done: short of funds now or before exactly when all of it together is too much. */
  lemma PayStep(g: Coins, done: Coins, d: Coins)
    ensures !(done + d <= g) <==> !(done <= g) || !(d <= g - done)
    ensures g - done - d == g - (done + d)
  {
    if done <= g && d <= g - done {
      forall x: Denom ensures (done + d)[x] <= g[x] {
        assert d[x] <= (g - done)[x] && done[x] <= g[x];
      }
    }
    if done + d <= g {
      forall x: Denom ensures done[x] <= g[x] && d[x] <= (g - done)[x] {
        assert (done + d)[x] <= g[x];
      }
    }
  }

  /** The deposits of a proposal that an iteration has dealt with. */
  function Handled<V>(m: map<DKey, V>, id: nat, left: set<DKey>): map<DKey, V> {
    map k | k in m && k.id == id && k !in left :: m[k]
  }

  function Kept<V>(m: map<DKey, V>, id: nat, left: set<DKey>): map<DKey, V> {
    map k | k in m && (k.id != id || k in left) :: m[k]
  }

  lemma HandledStep(m: map<DKey, Coins>, id: nat, left: set<DKey>, k: DKey)
    requires k in left && k in m && k.id == id
    ensures k in Handled(m, id, left - {k}) && Handled(m, id, left - {k})[k] == m[k]
    ensures Handled(m, id, left - {k}) - {k} == Handled(m, id, left)
    ensures Sum(Handled(m, id, left - {k})) == Sum(Handled(m, id, left)) + m[k]
  {
    SumRemove(Handled(m, id, left - {k}), k);
    hide Sum;
  }

  lemma AllHandled<V>(m: map<DKey, V>, id: nat)
    ensures Handled(m, id, {}) == OfProposal(m, id)
    ensures Kept(m, id, {}) == Without(m, id)
  {
  }

  lemma NoneHandled<V>(m: map<DKey, V>, id: nat)
    ensures Handled(m, id, OfProposal(m, id).Keys) == map[]
    ensures Kept(m, id, OfProposal(m, id).Keys) == m
  {
  }

  /** Deposits or votes of the proposal that an iteration has still to come to. */
  predicate Pending<V>(m: map<DKey, V>, id: nat, left: set<DKey>) {
    forall k | k in left :: k in m && k.id == id
  }

  lemma Turn<V>(m: map<DKey, V>, id: nat, left: set<DKey>, k: DKey)
    requires Pending(m, id, left) && k in left
    ensures k in m && k.id == id
    ensures k in Kept(m, id, left) && Kept(m, id, left)[k] == m[k]
    ensures Kept(m, id, left) - {k} == Kept(m, id, left - {k})
    ensures Pending(m, id, left - {k})
  {
  }

  predicate Covers(w: World, amount: Coins) {
    amount <= w.gov
  }

  /** The bank's transfer from the gov account. */
  function Receive(w: World, who: Address, amount: Coins): World {
    w.(gov := w.gov - amount, accounts := AddAt(w.accounts, who, amount))
  }

  /** The bank's burning of coins of the gov account. */
  function Burn(w: World, amount: Coins): World {
    w.(gov := w.gov - amount, supply := w.supply - amount)
  }

  ghost function Refunded(w: World, done: map<DKey, Coins>, id: nat): World {
    w.(gov := w.gov - Sum(done), accounts := PayBack(w.accounts, done, id))
  }

  ghost function Burnt(w: World, done: map<DKey, Coins>): World {
    w.(gov := w.gov - Sum(done), supply := w.supply - Sum(done))
  }

  ghost predicate Short(w: World, done: map<DKey, Coins>) {
    !(Sum(done) <= w.gov)
  }

  lemma RefundOne(w: World, ds: map<DKey, Coins>, id: nat, left: set<DKey>, k: DKey)
    requires k in left && k in ds && k.id == id
    ensures var v, done' := Refunded(w, Handled(ds, id, left), id), Handled(ds, id, left - {k});
            && Refunded(w, done', id) == Receive(v, k.who, ds[k])
            && (Short(w, done') <==> Short(w, Handled(ds, id, left)) || !Covers(v, ds[k]))
  {
    HandledStep(ds, id, left, k);
    PayBackOne(w.accounts, Handled(ds, id, left - {k}), k);
    PayStep(w.gov, Sum(Handled(ds, id, left)), ds[k]);
    hide Sum, PayBack, Handled, AddAt;
  }

  lemma BurnOne(w: World, ds: map<DKey, Coins>, id: nat, left: set<DKey>, k: DKey)
    requires k in left && k in ds && k.id == id
    ensures var v, done' := Burnt(w, Handled(ds, id, left)), Handled(ds, id, left - {k});
            && Burnt(w, done') == Burn(v, ds[k])
            && (Short(w, done') <==> Short(w, Handled(ds, id, left)) || !Covers(v, ds[k]))
  {
    HandledStep(ds, id, left, k);
    PayStep(w.gov, Sum(Handled(ds, id, left)), ds[k]);
    PayStep(w.supply, Sum(Handled(ds, id, left)), ds[k]);
    hide Sum, Handled;
  }

  /** One deposit refunded. */
  function RefundOf(s: Store, k: DKey): Store
    requires k in s.deposits
  {
    HaltIf(s.(deposits := s.deposits - {k}, world := Receive(s.world, k.who, s.deposits[k])), !Covers(s.world, s.deposits[k]))
  }

  /** One deposit burnt. */
  function BurnOf(s: Store, k: DKey): Store
    requires k in s.deposits
  {
    HaltIf(s.(deposits := s.deposits - {k}, world := Burn(s.world, s.deposits[k])), !Covers(s.world, s.deposits[k]))
  }

  /** The store in the middle of a refund, with the deposits of left still to come. */
  ghost function RefundingAt(s: Store, id: nat, left: set<DKey>): Store {
    var done := Handled(s.deposits, id, left);
    HaltIf(s.(deposits := Kept(s.deposits, id, left), world := Refunded(s.world, done, id)), Short(s.world, done))
  }

  ghost function BurningAt(s: Store, id: nat, left: set<DKey>): Store {
    var done := Handled(s.deposits, id, left);
    HaltIf(s.(deposits := Kept(s.deposits, id, left), world := Burnt(s.world, done)), Short(s.world, done))
  }

  lemma RefundTurn(s: Store, id: nat, left: set<DKey>, k: DKey)
    requires Pending(s.deposits, id, left) && k in left
    ensures var si := RefundingAt(s, id, left);
            k in si.deposits && RefundOf(si, k) == RefundingAt(s, id, left - {k})
    ensures Pending(s.deposits, id, left - {k})
  {
    Turn(s.deposits, id, left, k);
    RefundOne(s.world, s.deposits, id, left, k);
    hide Refunded, Receive, Covers, Short, Handled, Kept;
  }

  lemma BurnTurn(s: Store, id: nat, left: set<DKey>, k: DKey)
    requires Pending(s.deposits, id, left) && k in left
    ensures var si := BurningAt(s, id, left);
            k in si.deposits && BurnOf(si, k) == BurningAt(s, id, left - {k})
    ensures Pending(s.deposits, id, left - {k})
  {
    Turn(s.deposits, id, left, k);
    BurnOne(s.world, s.deposits, id, left, k);
    hide Burnt, Burn, Covers, Short, Handled, Kept;
  }

  lemma RefundStart(s: Store, id: nat)
    ensures Pending(s.deposits, id, OfProposal(s.deposits, id).Keys)
    ensures RefundingAt(s, id, OfProposal(s.deposits, id).Keys) == s
  {
    NoneHandled(s.deposits, id);
    SumEmpty(Handled(s.deposits, id, OfProposal(s.deposits, id).Keys));
    PayBackNothing(s.world.accounts, id);
    hide Sum, PayBack, Handled, Kept;
  }

  lemma BurnStart(s: Store, id: nat)
    ensures Pending(s.deposits, id, OfProposal(s.deposits, id).Keys)
    ensures BurningAt(s, id, OfProposal(s.deposits, id).Keys) == s
  {
    NoneHandled(s.deposits, id);
    SumEmpty(Handled(s.deposits, id, OfProposal(s.deposits, id).Keys));
    hide Sum, Handled, Kept;
  }

  lemma RefundEnd(s: Store, id: nat)
    ensures RefundingAt(s, id, {}) == RefundDeposits(s, id)
  {
    AllHandled(s.deposits, id);
    hide Sum, PayBack, Handled, Kept, Without, OfProposal;
  }

  lemma BurnEnd(s: Store, id: nat)
    ensures BurningAt(s, id, {}) == BurnDeposits(s, id)
  {
    AllHandled(s.deposits, id);
    hide Sum, Handled, Kept, Without, OfProposal;
  }

  class Keeper {
    var proposals: map<nat, Proposal>
    var inactive: set<QKey>
    var active: set<QKey>
    var quorum: map<QKey, QuorumEntry>
    var nInactive: nat
    var nActive: nat
    var nextId: nat
    var deposits: map<DKey, Coins>
    var votes: map<DKey, Vote>
    var minDeposit: MinDeposit
    var world: World
    var params: GovParams
    var dao: DaoParams
    var halted: bool

    /** The store this keeper stands for. */
    function Abs(): Store
      reads this
    {
      Store(proposals, inactive, active, quorum, nInactive, nActive, nextId, deposits, votes, minDeposit,
            world, params, dao, halted)
    }

    /** An empty store. */
    constructor (world: World, params: GovParams, dao: DaoParams)
      ensures Abs() == EmptyStore(world, params, dao)
    {
      proposals, inactive, active, quorum := map[], {}, {}, map[];
      nInactive, nActive, nextId := 0, 0, 1;
      deposits, votes, minDeposit := map[], map[], MinDeposit(multiset{}, 0);
      this.world, this.params, this.dao, halted := world, params, dao, false;
    }

    // -------------------------------------------------------------- counters

    method DecrementInactive()
      modifies `nInactive, `halted
      ensures nInactive == Pred(old(nInactive)) && halted == (old(halted) || old(nInactive) == 0)
    {
      if nInactive > 0 { nInactive := nInactive - 1; } else { halted := true; }
    }

    method DecrementActive()
      modifies `nActive, `halted
      ensures nActive == Pred(old(nActive)) && halted == (old(halted) || old(nActive) == 0)
    {
      if nActive > 0 { nActive := nActive - 1; } else { halted := true; }
    }

    method IncrementActive(env: Env, now: Time)
      modifies `nActive, `minDeposit
      ensures nActive == old(nActive) + 1
      ensures minDeposit == env.throttle(params, old(minDeposit), nActive, false, now)
    {
      nActive := nActive + 1;
      minDeposit := env.throttle(params, minDeposit, nActive, false, now);
    }

    // -------------------------------------------------------------- deposits and votes

    method RefundDeposit(k: DKey)
      requires k in deposits
      modifies `deposits, `world, `halted
      ensures Abs() == RefundOf(old(Abs()), k)
    {
      var amount := deposits[k];
      if !Covers(world, amount) { halted := true; }
      world := Receive(world, k.who, amount);
      deposits := deposits - {k};
    }

    method BurnDeposit(k: DKey)
      requires k in deposits
      modifies `deposits, `world, `halted
      ensures Abs() == BurnOf(old(Abs()), k)
    {
      var amount := deposits[k];
      if !Covers(world, amount) { halted := true; }
      world := Burn(world, amount);
      deposits := deposits - {k};
    }

    method RefundAndDeleteDeposits(id: nat)
      modifies `deposits, `world, `halted
      ensures Abs() == RefundDeposits(old(Abs()), id)
    {
      ghost var s := Abs();
      var left := OfProposal(deposits, id).Keys;
      RefundStart(s, id);
      RefundEnd(s, id);
      hide RefundingAt, OfProposal, Pending, RefundDeposits, RefundOf;
      while left != {}
        invariant Pending(s.deposits, id, left)
        invariant Abs() == RefundingAt(s, id, left)
        decreases |left|
      {
        var k :| k in left;
        RefundTurn(s, id, left, k);
        RefundDeposit(k);
        left := left - {k};
      }
    }

    method DeleteAndBurnDeposits(id: nat)
      modifies `deposits, `world, `halted
      ensures Abs() == BurnDeposits(old(Abs()), id)
    {
      ghost var s := Abs();
      var left := OfProposal(deposits, id).Keys;
      BurnStart(s, id);
      BurnEnd(s, id);
      hide BurningAt, OfProposal, Pending, BurnDeposits, BurnOf;
      while left != {}
        invariant Pending(s.deposits, id, left)
        invariant Abs() == BurningAt(s, id, left)
        decreases |left|
      {
        var k :| k in left;
        BurnTurn(s, id, left, k);
        BurnDeposit(k);
        left := left - {k};
      }
    }

    method SettleDeposits(id: nat, burn: bool)
      modifies `deposits, `world, `halted
      ensures Abs() == GovStore.SettleDeposits(old(Abs()), id, burn)
    {
      if burn { DeleteAndBurnDeposits(id); } else { RefundAndDeleteDeposits(id); }
    }

    method DeleteVotes(id: nat)
      modifies `votes
      ensures votes == Without(old(votes), id)
    {
      ghost var vs := votes;
      var left := OfProposal(votes, id).Keys;
      NoneHandled(vs, id);
      while left != {}
        invariant Pending(vs, id, left)
        invariant votes == Kept(vs, id, left)
        decreases |left|
      {
        var k :| k in left;
        Turn(vs, id, left, k);
        votes := votes - {k};
        left := left - {k};
      }
      AllHandled(vs, id);
    }

    // -------------------------------------------------------------- proposals

    method SetProposal(id: nat, p: Proposal)
      modifies `proposals
      ensures proposals == old(proposals)[id := p]
    {
      proposals := proposals[id := p];
    }

    method ActivateVotingPeriod(env: Env, now: Time, id: nat, p: Proposal)
      requires id in proposals && proposals[id] == p
      modifies this
      ensures Abs() == Activate(old(Abs()), env, now, id)
    {
      LeaveDepositPeriod(id, p.depositEnd, VotingProposal(p, now, params.votingPeriod));
      EnterVotingPeriod(env, now, id, now + params.votingPeriod);
    }

    method LeaveDepositPeriod(id: nat, depositEnd: Time, p: Proposal)
      modifies `proposals, `inactive, `nInactive, `halted
      ensures Abs() == HaltIf(old(Abs()).(proposals := old(proposals)[id := p],
                                          inactive := old(inactive) - {QKey(depositEnd, id)},
                                          nInactive := Pred(old(nInactive))),
                              old(nInactive) == 0)
    {
      SetProposal(id, p);
      inactive := inactive - {QKey(depositEnd, id)};
      DecrementInactive();
    }

    method EnterVotingPeriod(env: Env, now: Time, id: nat, end: Time)
      modifies `active, `quorum, `nActive, `minDeposit
      ensures var timeout := now + params.quorumTimeout;
              Abs() == old(Abs()).(
                active := old(active) + {QKey(end, id)},
                nActive := old(nActive) + 1,
                quorum := if params.checkCount == 0 then old(quorum)
                          else old(quorum)[QKey(timeout, id) := QuorumEntry(timeout, params.checkCount, 0)],
                minDeposit := env.throttle(params, old(minDeposit), old(nActive) + 1, false, now))
    {
      active := active + {QKey(end, id)};
      if params.checkCount > 0 {
        var timeout := now + params.quorumTimeout;
        quorum := quorum[QKey(timeout, id) := QuorumEntry(timeout, params.checkCount, 0)];
      }
      IncrementActive(env, now);
    }

    /** The iteration over the quorum-check entries up to the given time that stops at the first one of the proposal. */
    method DropQuorumEntry(id: nat, end: Time)
      modifies `quorum, `halted
      ensures Abs() == DropFirstEntry(old(Abs()), DueKeys(old(quorum).Keys, end), id)
    {
      ghost var rest := DueKeys(quorum.Keys, end);
      var at: Option<QKey> := None;
      UpcomingStart(quorum.Keys, end);
      hide Ahead, IsLeast, Upcoming, DueKeys;
      while Ahead(quorum.Keys, end, at) != {}
        invariant Upcoming(quorum.Keys, end, at, rest) && Abs() == old(Abs())
        invariant DropFirstEntry(Abs(), rest, id) == DropFirstEntry(old(Abs()), DueKeys(old(quorum).Keys, end), id)
        decreases |rest|
      {
        UpcomingNext(quorum.Keys, end, at, rest);
        var k :| k in Ahead(quorum.Keys, end, at) && IsLeast(k, Ahead(quorum.Keys, end, at));
        if k.id !in proposals {
          halted := true;
          return;
        }
        if k.id == id {
          quorum := quorum - {k};
          return;
        }
        UpcomingStep(quorum.Keys, quorum.Keys, end, at, rest);
        at := Some(k);
        rest := rest[1..];
      }
      UpcomingEnd(quorum.Keys, end, at, rest);
    }

    method DeleteProposal(id: nat)
      modifies `proposals, `inactive, `active, `quorum, `halted
      ensures Abs() == GovStore.DeleteProposal(old(Abs()), id)
    {
      if id !in proposals {
        halted := true;
        return;
      }
      hide DueKeys, DropFirstEntry;
      var p := proposals[id];
      inactive := inactive - {QKey(p.depositEnd, id)};
      if p.votingEnd.Some? {
        active := active - {QKey(p.votingEnd.value, id)};
        if p.votingStart.Some? { DropQuorumEntry(id, p.votingStart.value); } else { halted := true; }
      }
      proposals := proposals - {id};
    }

    method SubmitProposal(now: Time, messages: seq<Option<Message>>) returns (id: nat)
      modifies `proposals, `inactive, `nInactive, `nextId
      ensures id == old(nextId) && Abs() == Submit(old(Abs()), now, messages)
    {
      id := nextId;
      var p := NewProposal(messages, now + params.depositPeriod);
      SetProposal(id, p);
      inactive := inactive + {QKey(p.depositEnd, id)};
      nextId := id + 1;
      nInactive := nInactive + 1;
    }

    /** Whether the deposit reaches the threshold in one denom; the loop stops at the first one. */
    static method ThresholdMet(minDeposit: Coins, ratio: int, amount: Coins) returns (met: bool)
      ensures met == MeetsRatio(minDeposit, ratio, amount)
    {
      hide LegacyDec.Mul, LegacyDec.TruncateInt, LegacyDec.FromInt;
      var denoms := set d | d in minDeposit;
      met := false;
      while denoms != {} && !met
        invariant forall d :: d in denoms ==> d in minDeposit
        invariant met ==> MeetsRatio(minDeposit, ratio, amount)
        invariant !met ==> forall d | d in minDeposit && d !in denoms ::
          !(d in amount && amount[d] >= LegacyDec.TruncateInt(LegacyDec.Mul(LegacyDec.FromInt(minDeposit[d]), ratio)))
        decreases |denoms|
      {
        var d :| d in denoms;
        denoms := denoms - {d};
        if d in amount {
          met := amount[d] >= LegacyDec.TruncateInt(LegacyDec.Mul(LegacyDec.FromInt(minDeposit[d]), ratio));
        }
      }
    }

    /** AddDeposit: an error leaves everything as it was. */
    method AddDeposit(env: Env, now: Time, id: nat, who: Address, amount: Coins, skip: bool) returns (err: Option<TxError>)
      modifies this
      ensures match Deposit(old(Abs()), env, now, id, who, amount, skip)
              case Done(s) => err == None && Abs() == s
              case Refused(e) => err == Some(e) && Abs() == old(Abs())
    {
      hide MeetsRatio, RequiredDeposit;
      if id !in proposals { return Some(UnknownProposal); }
      var p := proposals[id];
      if p.status != DepositPeriod && p.status != VotingPeriod { return Some(InactiveProposal); }
      var min := RequiredDeposit(Abs());
      var skipRatio := skip;
      if p.status == DepositPeriod && min <= p.totalDeposit { skipRatio := true; }
      if params.depositRatio != 0 || !skipRatio {
        var met := ThresholdMet(min, params.depositRatio, amount);
        if !met { return Some(MinDepositTooSmall); }
      }
      if !(amount <= Get(world.accounts, who)) { return Some(InsufficientFunds); }
      RecordDeposit(env, now, id, who, amount);
      return None;
    }

    /** The part of AddDeposit that cannot fail any more. */
    method RecordDeposit(env: Env, now: Time, id: nat, who: Address, amount: Coins)
      requires id in proposals
      modifies this
      ensures Abs() == Deposited(old(Abs()), env, now, id, who, amount)
    {
      hide RequiredDeposit, AddAt, Activate, Pay;
      var min := RequiredDeposit(Abs());
      world := Pay(world, who, amount);
      var p := proposals[id].(totalDeposit := proposals[id].totalDeposit + amount);
      SetProposal(id, p);
      RequiredUnmoved(old(Abs()), Abs());
      if p.status == DepositPeriod && min <= p.totalDeposit {
        ActivateVotingPeriod(env, now, id, p);
      }
      deposits := AddAt(deposits, DKey(id, who), amount);
    }

    method AddVote(id: nat, voter: Address, vote: Vote) returns (err: Option<TxError>)
      modifies `votes
      ensures match CastVote(old(Abs()), id, voter, vote)
              case Done(s) => err == None && Abs() == s
              case Refused(e) => err == Some(e) && Abs() == old(Abs())
    {
      if id !in proposals || proposals[id].status != VotingPeriod { return Some(InactiveProposal); }
      votes := votes[DKey(id, voter) := vote];
      return None;
    }

    // -------------------------------------------------------------- quorum and tally

    /** The non-final tallyVotes: the voting power of the proposal's voters, stopping at the first error. */
    method VotingPower(env: Env, id: nat) returns (r: Option<nat>)
      ensures r == TotalPower(env, world, VotersOf(Abs(), id))
    {
      var left := VotesOf(Abs(), id).Keys;
      ghost var voters := left;
      var total: nat := 0;
      hide VotesOf, TotalPower, PlusPower;
      PlusNothing(TotalPower(env, world, left));
      while left != {}
        invariant PlusPower(Some(total), TotalPower(env, world, left)) == TotalPower(env, world, voters)
        decreases |left|
      {
        var v :| v in left;
        TotalPowerRemove(env, world, left, v);
        var power := env.power(world, v);
        PlusOne(total, power, TotalPower(env, world, left - {v}));
        if power.None? { return None; }
        total := total + power.value;
        left := left - {v};
      }
      NoPower(env, world, total);
      r := Some(total);
    }

    method HasReachedQuorum(env: Env, id: nat, p: Proposal) returns (r: QuorumCheck)
      ensures r == GovStore.HasReachedQuorum(env, world, p, VotersOf(Abs(), id))
    {
      hide VotersOf, TotalPower, Share;
      var bonded := env.bonded(world);
      if bonded.None? { return QuorumError; }
      if bonded.value == 0 { return NotReached; }
      var total := VotingPower(env, id);
      if total.None? { return QuorumError; }
      r := if Share(total.value, bonded.value) >= env.quorum(world, p) then Reached else NotReached;
    }

    method Tally(env: Env, id: nat, p: Proposal) returns (o: TallyOutcome)
      modifies `votes
      ensures o == env.tally(world, p, VotesOf(old(Abs()), id))
      ensures votes == TalliedVotes(old(votes), id, o.err)
    {
      o := env.tally(world, p, VotesOf(Abs(), id));
      votes := TalliedVotes(votes, id, o.err);
    }

    /** The messages of a passed proposal run on a cache, which is written back only if all of them succeed. */
    method ExecuteMessages(env: Env, messages: seq<Option<Message>>) returns (status: Status)
      modifies `world
      ensures (status, world) == Execute(env, old(world), messages)
    {
      var cache, idx, ok := world, 0, AllUnpack(messages);
      while ok && idx < |messages|
        invariant idx <= |messages| && world == old(world)
        invariant ok ==> AllUnpack(messages) && RunMessages(env, cache, messages[idx..]) == RunMessages(env, world, messages)
        invariant !ok ==> !AllUnpack(messages) || RunMessages(env, world, messages) == None
        decreases ok, |messages| - idx
      {
        assert messages[idx] in messages && messages[idx..][1..] == messages[idx + 1..];
        var res := env.handle(cache, messages[idx].value);
        if res.None? {
          ok := false;
        } else {
          cache := res.value;
          idx := idx + 1;
        }
      }
      if ok {
        world := cache;
        status := Passed;
      } else {
        status := Failed;
      }
    }

    static method NextQuorumCheck(at: Time, entry: QuorumEntry, end: Time, now: Time) returns (r: Next)
      ensures r == NextCheck(at, entry, end, now)
    {
      hide LegacyDec.TruncDiv;
      if entry.count == 0 { return DivideByZero; }
      var t := LegacyDec.TruncDiv(end - entry.timeout, entry.count);
      var next := at + t;
      if next <= now {
        if t == 0 { return DivideByZero; }
        var n := LegacyDec.TruncDiv(now - next, t);
        next := next + t * (n + 1);
      }
      if next > end { next := end; }
      r := At(next);
    }

    // -------------------------------------------------------------- the callbacks of EndBlocker

    method OnInactive(env: Env, now: Time, id: nat)
      modifies this
      ensures Abs() == InactiveStep(old(Abs()), env, now, id)
    {
      if id !in proposals {
        halted := true;
        return;
      }
      var p := proposals[id];
      if p.status == DepositPeriod && RequiredDeposit(Abs()) <= p.totalDeposit {
        ActivateVotingPeriod(env, now, id, p);
        return;
      }
      hide GovStore.SettleDeposits, RequiredDeposit;
      DeleteProposal(id);
      SettleDeposits(id, params.burnPrevote);
      DecrementInactive();
    }

    method OnQuorumCheck(env: Env, now: Time, k: QKey)
      requires k in quorum && k.id in proposals && proposals[k.id].votingEnd.Some?
      modifies `quorum, `active, `proposals, `halted
      ensures Abs() == QuorumStep(old(Abs()), env, now, k)
    {
      hide GovStore.HasReachedQuorum, NextCheck, VotersOf, OfProposal;
      var entry, p := quorum[k], proposals[k.id];
      var end := p.votingEnd.value;
      quorum := quorum - {k};
      var check := HasReachedQuorum(env, k.id, p);
      VotersLocal(old(Abs()), Abs(), k.id);
      if check == QuorumError { return; }
      if check == Reached {
        if entry.done > 0 {
          var endTime := now + params.extension;
          if endTime > end {
            active := active - {QKey(end, k.id)};
            active := active + {QKey(endTime, k.id)};
            SetProposal(k.id, p.(votingEnd := Some(endTime)));
          }
        }
      } else if entry.done < entry.count && end > now {
        var next := NextQuorumCheck(k.time, entry, end, now);
        if next == DivideByZero {
          halted := true;
          return;
        }
        quorum := quorum[QKey(next.time, k.id) := entry.(done := entry.done + 1)];
      }
    }

    method CloseProposal(id: nat, p: Proposal, end: Time)
      modifies `proposals, `active, `nActive, `halted
      ensures Abs() == HaltIf(old(Abs()).(proposals := old(proposals)[id := p],
                                          active := old(active) - {QKey(end, id)},
                                          nActive := Pred(old(nActive))),
                              old(nActive) == 0)
    {
      SetProposal(id, p);
      active := active - {QKey(end, id)};
      DecrementActive();
    }

    method OnActive(env: Env, id: nat)
      modifies this
      ensures Abs() == ActiveStep(old(Abs()), env, id)
    {
      if id !in proposals || proposals[id].votingEnd.None? {
        halted := true;
        return;
      }
      hide GovStore.SettleDeposits, Execute, VotesOf, TalliedVotes;
      var p := proposals[id];
      var o := Tally(env, id, p);
      SettleDeposits(id, o.burn);
      var status := Rejected;
      if o.passes {
        status := ExecuteMessages(env, p.messages);
      }
      p := p.(status := status, tally := o.result);
      CloseProposal(id, p, p.votingEnd.value);
      world := env.afterTally(world, p, o);
    }

    // -------------------------------------------------------------- EndBlocker

    method IterateInactive(env: Env, now: Time)
      requires Inv(Abs())
      modifies this
      ensures Abs() == AfterInactive(old(Abs()), env, now)
    {
      ghost var rest := DueKeys(inactive, now);
      var at: Option<QKey> := None;
      UpcomingStart(inactive, now);
      DueInactive(Abs(), now);
      hide Inv, InactiveStep, Ahead, IsLeast, Upcoming, DueKeys;
      while Ahead(inactive, now, at) != {}
        invariant Upcoming(inactive, now, at, rest)
        invariant Inv(Abs()) && DistinctIds(rest) && forall k | k in rest :: k in inactive
        invariant InactivePass(Abs(), env, now, rest) == AfterInactive(old(Abs()), env, now)
        decreases |rest|
      {
        UpcomingNext(inactive, now, at, rest);
        var k :| k in Ahead(inactive, now, at) && IsLeast(k, Ahead(inactive, now, at));
        ghost var q := inactive;
        InactiveTurn(Abs(), env, now, rest);
        OnInactive(env, now, k.id);
        UpcomingStep(q, inactive, now, at, rest);
        at := Some(k);
        rest := rest[1..];
      }
      UpcomingEnd(inactive, now, at, rest);
    }

    method IterateQuorumChecks(env: Env, now: Time)
      requires Inv(Abs()) && PositiveQuorum(env)
      modifies this
      ensures Abs() == AfterQuorum(old(Abs()), env, now)
    {
      ghost var rest := DueKeys(quorum.Keys, now);
      var at: Option<QKey> := None;
      UpcomingStart(quorum.Keys, now);
      DueQuorum(Abs(), now);
      hide Inv, QuorumStep, Ahead, IsLeast, Upcoming, DueKeys, PositiveQuorum;
      while Ahead(quorum.Keys, now, at) != {}
        invariant Upcoming(quorum.Keys, now, at, rest)
        invariant Inv(Abs()) && DistinctIds(rest) && forall k | k in rest :: k in quorum
        invariant QuorumPass(Abs(), env, now, rest) == AfterQuorum(old(Abs()), env, now)
        decreases |rest|
      {
        UpcomingNext(quorum.Keys, now, at, rest);
        var k :| k in Ahead(quorum.Keys, now, at) && IsLeast(k, Ahead(quorum.Keys, now, at));
        ghost var q := quorum.Keys;
        QuorumTurn(Abs(), env, now, rest);
        OnQuorumCheck(env, now, k);
        UpcomingStep(q, quorum.Keys, now, at, rest);
        at := Some(k);
        rest := rest[1..];
      }
      UpcomingEnd(quorum.Keys, now, at, rest);
    }

    method IterateActive(env: Env, now: Time)
      requires Inv(Abs()) && forall k | k in quorum :: k.time > now
      modifies this
      ensures Abs() == AfterActive(old(Abs()), env, now)
    {
      ghost var rest := DueKeys(active, now);
      var at: Option<QKey> := None;
      UpcomingStart(active, now);
      DueReady(Abs(), now);
      hide Inv, ActiveStep, Ahead, IsLeast, Upcoming, DueKeys, Ready;
      while Ahead(active, now, at) != {}
        invariant Upcoming(active, now, at, rest)
        invariant Inv(Abs()) && Ready(Abs(), rest)
        invariant ActivePass(Abs(), env, rest) == AfterActive(old(Abs()), env, now)
        decreases |rest|
      {
        UpcomingNext(active, now, at, rest);
        var k :| k in Ahead(active, now, at) && IsLeast(k, Ahead(active, now, at));
        ghost var q := active;
        ActiveTurn(Abs(), env, now, rest);
        OnActive(env, k.id);
        UpcomingStep(q, active, now, at, rest);
        at := Some(k);
        rest := rest[1..];
      }
      UpcomingEnd(active, now, at, rest);
    }

    /** EndBlocker. */
    method EndBlock(env: Env, now: Time)
      requires Inv(Abs()) && PositiveQuorum(env)
      modifies this
      ensures Abs() == GovEndBlock.EndBlock(old(Abs()), env, now)
      ensures Inv(Abs()) && Clear(Abs(), now)
    {
      AfterInactiveInv(Abs(), env, now);
      AfterQuorumInv(AfterInactive(Abs(), env, now), env, now);
      EndBlockInv(Abs(), env, now);
      hide Inv, Clear, AfterInactive, AfterQuorum, AfterActive, PositiveQuorum;
      IterateInactive(env, now);
      IterateQuorumChecks(env, now);
      IterateActive(env, now);
      minDeposit := env.throttle(params, minDeposit, nActive, true, now);
    }
  }

  lemma PlusNothing(a: Option<nat>)
    ensures PlusPower(Some(0), a) == a
  {
  }

  lemma PlusOne(total: nat, power: Option<nat>, rest: Option<nat>)
    ensures PlusPower(Some(total), PlusPower(power, rest)) ==
            if power.None? then None else PlusPower(Some(total + power.value), rest)
  {
  }

  lemma NoPower(env: Env, w: World, total: nat)
    ensures PlusPower(Some(total), TotalPower(env, w, {})) == Some(total)
  {
  }

  /** The minimum deposit does not depend on what a deposit changes. */
  lemma RequiredUnmoved(s: Store, s': Store)
    requires s'.minDeposit == s.minDeposit && s'.params == s.params
    ensures RequiredDeposit(s') == RequiredDeposit(s)
  {
  }

  /** One turn of the inactive pass keeps what the pass relies on. */
  lemma InactiveTurn(s: Store, env: Env, now: Time, rest: seq<QKey>)
    requires Inv(s) && DistinctIds(rest) && rest != [] && forall k | k in rest :: k in s.inactive
    ensures var s' := InactiveStep(s, env, now, rest[0].id);
            && Inv(s') && DistinctIds(rest[1..]) && (forall k | k in rest[1..] :: k in s'.inactive)
            && forall x: QKey | x.time <= now && rest[0].Before(x) :: x in s.inactive <==> x in s'.inactive
  {
    hide Inv, InactiveStep;
    InactiveStepInv(s, env, now, rest[0]);
    forall k | k in rest[1..] ensures k in InactiveStep(s, env, now, rest[0].id).inactive {
      TailKeys(rest, k);
    }
  }

  lemma ActiveTurn(s: Store, env: Env, now: Time, rest: seq<QKey>)
    requires Inv(s) && Ready(s, rest) && rest != []
    ensures var s' := ActiveStep(s, env, rest[0].id);
            && Inv(s') && Ready(s', rest[1..])
            && forall x: QKey | x.time <= now && rest[0].Before(x) :: x in s.active <==> x in s'.active
  {
    hide Inv, ActiveStep, Ready;
    ReadyTail(s, env, rest);
  }

  /** One turn of the quorum pass keeps what the pass relies on. */
  lemma QuorumTurn(s: Store, env: Env, now: Time, rest: seq<QKey>)
    requires Inv(s) && PositiveQuorum(env) && DistinctIds(rest) && rest != []
    requires (forall k | k in rest :: k in s.quorum) && rest[0].time <= now
    ensures var k, s' := rest[0], QuorumStep(s, env, now, rest[0]);
            && k.id in s.proposals && s.proposals[k.id].votingEnd.Some?
            && Inv(s') && DistinctIds(rest[1..]) && (forall x | x in rest[1..] :: x in s'.quorum)
            && forall x: QKey | x.time <= now && k.Before(x) :: x in s.quorum.Keys <==> x in s'.quorum.Keys
  {
    var k := rest[0];
    EntryHasEnd(s, k);
    QuorumStepInv(s, env, now, k);
    QuorumStepKeys(s, env, now, k);
    OneEntryOnly(s, k);
    hide Inv, QuorumStep, PositiveQuorum;
    forall x | x in rest[1..] ensures x in QuorumStep(s, env, now, k).quorum {
      TailKeys(rest, x);
    }
  }

  lemma OneEntryOnly(s: Store, k: QKey)
    requires Inv(s) && k in s.quorum
    ensures forall x | x in s.quorum && x.id == k.id :: x == k
  {
  }
}
