/**
 An explicit bound over runs with fixed parameters: the last end a voting proposal can reach.
 */
module GovBounds {
  import opened Options
  import opened GovTypes
  import opened CoinSums
  import opened GovQueue
  import opened GovStore
  import opened GovEndBlock
  import opened GovInvariants
  import opened GovBlock
  import opened GovScan
  import opened GovFate
  import opened GovChecks
  import opened GovTx
  import opened CoreDaos
  import opened GovSteps
  import opened GovRuns
  import opened GovHistory
  import opened GovDeadlines
  import LegacyDec

  predicate FixedParams(txs: seq<Tx>) {
    forall tx | tx in txs :: !tx.NewDaoParams? && !tx.NewGovParams?
  }

  lemma ApplyParams(s: Store, env: Env, now: Time, tx: Tx)
    requires !tx.NewGovParams?
    ensures Apply(s, env, now, tx).params == s.params
  {
    hide MeetsDeposit, RatioChecked, MeetsRatio, GovStore.SettleDeposits, Allowed, RequiredDeposit;
    if tx.Vetoing? && tx.id in s.proposals { SettleKeeps(s, tx.id, tx.burn); }
  }

  lemma {:induction false} ApplyAllParams(s: Store, env: Env, now: Time, txs: seq<Tx>)
    requires FixedParams(txs)
    ensures ApplyAll(s, env, now, txs).params == s.params
    decreases |txs|
  {
    hide Apply;
    if txs != [] {
      assert txs[0] in txs && forall tx | tx in txs[1..] :: tx in txs;
      ApplyParams(s, env, now, txs[0]);
      ApplyAllParams(Apply(s, env, now, txs[0]), env, now, txs[1..]);
    }
  }

  // ---------------------------------------------------------------- the last end

  function Rest(limit: nat, times: nat): nat {
    if times < limit then limit - times else 0
  }

  function AtLeast0(x: int): nat {
    if x > 0 then x else 0
  }

  /**
   The latest end a voting proposal can get, if blocks are at most gap apart: every extension
   the DAOs have left, and, while a check is to come, a late quorum found up to gap after it.
   */
  ghost function Deadline(s: Store, id: nat, gap: Duration): Time
    requires id in s.proposals && s.proposals[id].votingEnd.Some?
  {
    var p := s.proposals[id];
    p.votingEnd.value + Rest(s.dao.limit, p.timesExtended) * s.dao.duration
      + (if EntriesOf(s.quorum, id) != map[] then AtLeast0(gap + s.params.extension) else 0)
  }

  /** A due check comes at most gap after the end it was set for. */
  lemma CheckNearEnd(s: Store, last: Time, now: Time, gap: Duration, id: nat)
    requires Good(s, last) && now <= last + gap && IsVoting(s, id) && CheckDue(s, now, id)
    ensures s.proposals[id].votingEnd.Some? && now < s.proposals[id].votingEnd.value + gap
    ensures EntriesOf(s.quorum, id) != map[]
  {
    var k :| k in s.quorum && k.id == id && k.time <= now;
    assert EntryOk(k.time, s.quorum[k], s.proposals[k.id]);
    assert k in EntriesOf(s.quorum, id);
  }

  lemma RestArithmetic(limit: nat, a: nat, b: nat, d: int)
    requires a <= b && (a < b ==> b <= limit) && d > 0
    ensures (b - a) * d + Rest(limit, b) * d == Rest(limit, a) * d
    ensures Rest(limit, b) * d <= Rest(limit, a) * d
  {
    if a < b {
      assert Rest(limit, a) == (b - a) + Rest(limit, b);
      assert Rest(limit, a) * d == (b - a) * d + Rest(limit, b) * d;
      LegacyDec.MulLe(0, b - a, d);
    }
  }

  /** Without updates of the DAO parameters the extensions granted in a block are all by the same duration, within the limit. */
  lemma GrantedFixed(s: Store, env: Env, b: Block, last: Time, id: nat)
    requires Good(s, last) && last < b.time && IsVoting(s, id) && NoDaoParams(b.txs)
    ensures var (n, d) := GrantedBy(s, env, b.time, b.txs, id);
            && d == n * s.dao.duration && (n > 0 ==> s.proposals[id].timesExtended + n <= s.dao.limit)
            && ApplyAll(s, env, b.time, b.txs).dao == s.dao
  {
    VotingAtId(s, id);
    hide Inv, ApplyAll, EntriesOf, DaoParamsOk, Clear;
    ApplyAllVoting(s, env, b.time, b.txs, id);
    ApplyAllGain(s, env, b.time, b.txs, id);
  }

  lemma DeadlineStep(s: Store, env: Env, b: Block, last: Time, gap: Duration, id: nat)
    requires Good(s, last) && PositiveQuorum(env) && last < b.time <= last + gap && IsVoting(s, id) && FixedParams(b.txs)
    ensures var s' := Step(s, env, b);
            && id in s'.proposals && s.proposals[id].votingEnd.Some? && s'.proposals[id].votingEnd.Some?
            && Deadline(s', id, gap) <= Deadline(s, id, gap)
  {
    hide ApplyAll, Step, EntriesOf, ChecksLeft, CheckDue, PositiveQuorum, Inv, Clear;
    var late := BlockVoting(s, env, b, last, id);
    ApplyAllParams(s, env, b.time, b.txs);
    GrantedFixed(s, env, b, last, id);
    var s' := Step(s, env, b);
    if late { CheckNearEnd(s, last, b.time, gap, id); }
    NoChecksLeft(EntriesOf(s.quorum, id));
    RestArithmetic(s.dao.limit, s.proposals[id].timesExtended, s'.proposals[id].timesExtended, s.dao.duration);
    hide Rest;
  }

  /** Blocks at most gap apart, without parameter changes. */
  predicate Steady(last: Time, gap: Duration, bs: seq<Block>)
    decreases |bs|
  {
    bs == [] || (last < bs[0].time <= last + gap && FixedParams(bs[0].txs) && Steady(bs[0].time, gap, bs[1..]))
  }

  lemma {:induction false} SteadyTimely(last: Time, gap: Duration, bs: seq<Block>)
    requires Steady(last, gap, bs)
    ensures Timely(last, bs)
    decreases |bs|
  {
    if bs != [] { SteadyTimely(bs[0].time, gap, bs[1..]); }
  }

  /**
   As long as a proposal is voting, its end lies after the last block and no later than the
   deadline; so no proposal votes any more once a block has reached its deadline.
   */
  lemma {:induction false} VotesEndByDeadline(s: Store, env: Env, bs: seq<Block>, last: Time, gap: Duration, id: nat)
    requires Good(s, last) && PositiveQuorum(env) && Steady(last, gap, bs) && IsVoting(s, id)
    ensures s.proposals[id].votingEnd.Some?
    ensures var r := Run(s, env, bs);
            IsVoting(r, id) ==>
              && r.proposals[id].votingEnd.Some?
              && LastTime(last, bs) < r.proposals[id].votingEnd.value <= Deadline(s, id, gap)
    decreases |bs|
  {
    hide Good, PositiveQuorum, Step, Deadline;
    VotingEndSome(s, last, id);
    if bs == [] {
      EndAhead(s, last, id);
      DeadlineBeyond(s, last, gap, id);
    } else {
      var s1 := Step(s, env, bs[0]);
      StepGood(s, env, bs[0], last);
      DeadlineStep(s, env, bs[0], last, gap, id);
      if IsVoting(s1, id) {
        VotesEndByDeadline(s1, env, bs[1..], bs[0].time, gap, id);
      } else {
        StepStarted(s, env, bs[0], last, id);
        SteadyTimely(bs[0].time, gap, bs[1..]);
        FinalForever(s1, env, bs[1..], bs[0].time, id);
      }
    }
  }

  lemma DeadlineBeyond(s: Store, last: Time, gap: Duration, id: nat)
    requires Good(s, last) && IsVoting(s, id) && s.proposals[id].votingEnd.Some?
    ensures s.proposals[id].votingEnd.value <= Deadline(s, id, gap)
  {
    hide Inv, Clear, EntriesOf;
    LegacyDec.MulLe(0, Rest(s.dao.limit, s.proposals[id].timesExtended), s.dao.duration);
  }
}
