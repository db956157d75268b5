/**
 Every voting period ends.  The DAOs move a proposal's end at most up to their limit and a late
 quorum moves it at most once, which forces it out of the voting period in every run whose
 block times grow without bound and whose limit does not.
 */
module GovDeadlines {
  import opened Options
  import opened GovTypes
  import opened CoinSums
  import opened GovQueue
  import opened GovStore
  import opened GovEndBlock
  import opened GovInvariants
  import opened GovBlock
  import opened GovScan
  import opened GovFate
  import opened GovChecks
  import opened GovTx
  import opened CoreDaos
  import opened GovSteps
  import opened GovRuns
  import opened GovHistory
  import LegacyDec

  // ---------------------------------------------------------------- liveness

  /** The DAO parameters set by these transactions allow at most the given number of extensions. */
  predicate LimitedBy(txs: seq<Tx>, limit: nat) {
    forall tx | tx in txs :: tx.NewDaoParams? ==> tx.dao.limit <= limit
  }

  /** How often the end of a voting proposal can still move: the extensions left under the limit, and one late quorum. */
  ghost function MovesLeft(s: Store, id: nat, limit: nat): nat
    requires id in s.proposals
  {
    var n := s.proposals[id].timesExtended;
    (if n < limit then limit - n else 0) + One(EntriesOf(s.quorum, id) != map[])
  }

  /** Between s and s', the end has moved only with the number of extensions, and those stay within the limit. */
  ghost predicate MovedWithin(s: Store, s': Store, id: nat, limit: nat) {
    && Started(s, id) && Started(s', id) && s'.dao.limit <= limit
    && EntriesOf(s'.quorum, id) == EntriesOf(s.quorum, id)
    && var p, p' := s.proposals[id], s'.proposals[id];
    && p.timesExtended <= p'.timesExtended
    && (p.timesExtended == p'.timesExtended ==> p'.votingEnd == p.votingEnd)
    && (p.timesExtended < p'.timesExtended ==> p'.timesExtended <= limit)
  }

  lemma ApplyWithin(s: Store, env: Env, now: Time, tx: Tx, id: nat, limit: nat)
    requires Inv(s) && DaoParamsOk(s.dao) && Started(s, id) && s.dao.limit <= limit
    requires tx.NewDaoParams? ==> tx.dao.limit <= limit
    ensures MovedWithin(s, Apply(s, env, now, tx), id, limit)
  {
    ApplyLimit(s, env, now, tx, limit);
    if IsVoting(s, id) { ApplyVoting(s, env, now, tx, id); } else { ApplyClosed(s, env, now, tx, id); }
    hide Inv, Apply, EntriesOf;
  }

  lemma ApplyLimit(s: Store, env: Env, now: Time, tx: Tx, limit: nat)
    requires DaoParamsOk(s.dao) && s.dao.limit <= limit && (tx.NewDaoParams? ==> tx.dao.limit <= limit)
    ensures Apply(s, env, now, tx).dao.limit <= limit
  {
    if !tx.NewDaoParams? {
      ApplyDao(s, env, now, tx);
      hide Apply;
    }
  }

  lemma {:induction false} ApplyAllLimit(s: Store, env: Env, now: Time, txs: seq<Tx>, limit: nat)
    requires DaoParamsOk(s.dao) && s.dao.limit <= limit && LimitedBy(txs, limit)
    ensures ApplyAll(s, env, now, txs).dao.limit <= limit
    decreases |txs|
  {
    hide Apply, DaoParamsOk;
    if txs != [] {
      assert txs[0] in txs && forall tx | tx in txs[1..] :: tx in txs;
      ApplyDao(s, env, now, txs[0]);
      ApplyLimit(s, env, now, txs[0], limit);
      ApplyAllLimit(Apply(s, env, now, txs[0]), env, now, txs[1..], limit);
    }
  }

  lemma StepLimit(s: Store, env: Env, b: Block, last: Time, limit: nat)
    requires Good(s, last) && s.dao.limit <= limit && LimitedBy(b.txs, limit)
    ensures Step(s, env, b).dao.limit <= limit
  {
    hide ApplyAll, EndBlock, LimitedBy, Inv, Clear;
    ApplyAllLimit(s, env, b.time, b.txs, limit);
    EndBlockDao(ApplyAll(s, env, b.time, b.txs), env, b.time);
  }

  lemma WithinCompose(s: Store, s1: Store, s2: Store, id: nat, limit: nat)
    requires MovedWithin(s, s1, id, limit) && MovedWithin(s1, s2, id, limit)
    ensures MovedWithin(s, s2, id, limit)
  {
    hide EntriesOf;
  }

  lemma WithinStarted(s: Store, s': Store, id: nat, limit: nat)
    requires MovedWithin(s, s', id, limit)
    ensures Started(s', id) && s'.dao.limit <= limit
  {
  }

  lemma WithinRefl(s: Store, id: nat, limit: nat)
    requires Started(s, id) && s.dao.limit <= limit
    ensures MovedWithin(s, s, id, limit)
  {
  }

  lemma {:induction false} ApplyAllWithin(s: Store, env: Env, now: Time, txs: seq<Tx>, id: nat, limit: nat)
    requires Inv(s) && DaoParamsOk(s.dao) && Started(s, id) && s.dao.limit <= limit && LimitedBy(txs, limit)
    ensures MovedWithin(s, ApplyAll(s, env, now, txs), id, limit)
    decreases |txs|
  {
    hide Inv, Apply, DaoParamsOk, MovedWithin, Started;
    if txs == [] {
      WithinRefl(s, id, limit);
    } else {
      assert txs[0] in txs && forall tx | tx in txs[1..] :: tx in txs;
      var s1 := Apply(s, env, now, txs[0]);
      ApplyInv(s, env, now, txs[0]);
      ApplyDao(s, env, now, txs[0]);
      ApplyWithin(s, env, now, txs[0], id, limit);
      WithinStarted(s, s1, id, limit);
      ApplyAllWithin(s1, env, now, txs[1..], id, limit);
      WithinCompose(s, s1, ApplyAll(s1, env, now, txs[1..]), id, limit);
    }
  }

  /** EndBlock moves the end of a proposal only by a late quorum, and that takes its entry. */
  lemma EndBlockMove(s: Store, env: Env, now: Time, id: nat)
    requires Inv(s) && PositiveQuorum(env) && Started(s, id)
    ensures var s' := EndBlock(s, env, now);
            && Started(s', id) && s'.dao == s.dao && s'.proposals[id].timesExtended == s.proposals[id].timesExtended
            && (EntriesOf(s.quorum, id) == map[] ==> EntriesOf(s'.quorum, id) == map[])
            && (s'.proposals[id].votingEnd != s.proposals[id].votingEnd ==>
                  EntriesOf(s.quorum, id) != map[] && EntriesOf(s'.quorum, id) == map[])
  {
    hide Inv, EndBlock, EntriesOf, OfProposal, LateQuorum, AfterInactive, CheckDue, ChecksLeft, PositiveQuorum;
    EndBlockUses(s, env, now, id);
    EndBlockDao(s, env, now);
    NoChecksLeft(EntriesOf(s.quorum, id));
    if IsVoting(s, id) { EndBlockEnds(s, env, now, id); } else { ClosedFate(s, env, now, id); }
  }

  /** A block that moves the end uses up a move. */
  lemma MoveUsesUp(s: Store, env: Env, b: Block, last: Time, id: nat, limit: nat)
    requires Good(s, last) && PositiveQuorum(env) && last < b.time && IsVoting(s, id)
    requires s.dao.limit <= limit && LimitedBy(b.txs, limit)
    ensures var s' := Step(s, env, b);
            && Started(s', id) && s'.dao.limit <= limit && MovesLeft(s', id, limit) <= MovesLeft(s, id, limit)
            && (s'.proposals[id].votingEnd == s.proposals[id].votingEnd || MovesLeft(s', id, limit) < MovesLeft(s, id, limit))
  {
    hide Inv, ApplyAll, EndBlock, EntriesOf, DaoParamsOk, LimitedBy;
    var s1 := ApplyAll(s, env, b.time, b.txs);
    ApplyAllInv(s, env, b.time, b.txs, last);
    ApplyAllWithin(s, env, b.time, b.txs, id, limit);
    EndBlockMove(s1, env, b.time, id);
  }

  /** A block whose time has reached the end of a voting proposal, and leaves that end alone, closes it. */
  lemma DueIsClosed(s: Store, env: Env, b: Block, last: Time, id: nat)
    requires Good(s, last) && PositiveQuorum(env) && last < b.time && IsVoting(s, id)
    requires s.proposals[id].votingEnd.Some? && s.proposals[id].votingEnd.value <= b.time
    requires id in Step(s, env, b).proposals && Step(s, env, b).proposals[id].votingEnd == s.proposals[id].votingEnd
    ensures !IsVoting(Step(s, env, b), id)
  {
    StepGood(s, env, b, last);
    hide Step, PositiveQuorum, Good;
    EndAhead(Step(s, env, b), b.time, id);
  }

  lemma EndAhead(s: Store, last: Time, id: nat)
    requires Good(s, last)
    ensures IsVoting(s, id) ==> s.proposals[id].votingEnd.Some? && last < s.proposals[id].votingEnd.value
  {
    if IsVoting(s, id) { VotingAtId(s, id); }
  }

  /** The state after the first n blocks of an endless run. */
  ghost function At(s: Store, env: Env, run: nat -> Block, n: nat): Store {
    if n == 0 then s else Step(At(s, env, run, n - 1), env, run(n - 1))
  }

  function TimeAt(last: Time, run: nat -> Block, n: nat): Time {
    if n == 0 then last else run(n - 1).time
  }

  /** An endless run: block times increase beyond every bound, and the DAOs' extension limit never exceeds a bound. */
  ghost predicate Endless(last: Time, run: nat -> Block, limit: nat) {
    && (forall n: nat :: Regular(last, run, limit, n))
    && (forall t: Time :: Reached(run, t))
  }

  predicate Regular(last: Time, run: nat -> Block, limit: nat, n: nat) {
    TimeAt(last, run, n) < run(n).time && LimitedBy(run(n).txs, limit)
  }

  ghost predicate Reached(run: nat -> Block, t: Time) {
    exists n: nat :: t <= run(n).time
  }

  lemma BlockAt(last: Time, run: nat -> Block, limit: nat, n: nat)
    requires Endless(last, run, limit)
    ensures TimeAt(last, run, n) < run(n).time && LimitedBy(run(n).txs, limit)
  {
    assert Regular(last, run, limit, n);
  }

  lemma BlockReaching(last: Time, run: nat -> Block, limit: nat, t: Time, m: nat) returns (n: nat)
    requires Endless(last, run, limit)
    ensures m <= n && t <= run(n).time
  {
    assert Reached(run, t);
    var x: nat :| t <= run(x).time;
    n := if x < m then m else x;
    LaterTimes(last, run, limit, x, n);
  }

  lemma {:induction false} AtGood(s: Store, env: Env, run: nat -> Block, limit: nat, last: Time, n: nat)
    requires Good(s, last) && PositiveQuorum(env) && Endless(last, run, limit) && s.dao.limit <= limit
    ensures Good(At(s, env, run, n), TimeAt(last, run, n)) && At(s, env, run, n).dao.limit <= limit
    decreases n
  {
    hide Good, PositiveQuorum, Step, Endless;
    if n > 0 {
      AtGood(s, env, run, limit, last, n - 1);
      BlockAt(last, run, limit, n - 1);
      StepGood(At(s, env, run, n - 1), env, run(n - 1), TimeAt(last, run, n - 1));
      StepLimit(At(s, env, run, n - 1), env, run(n - 1), TimeAt(last, run, n - 1), limit);
    }
  }

  lemma {:induction false} LaterTimes(last: Time, run: nat -> Block, limit: nat, m: nat, n: nat)
    requires Endless(last, run, limit) && m <= n
    ensures run(m).time <= run(n).time
    decreases n - m
  {
    hide Endless;
    if m < n {
      LaterTimes(last, run, limit, m, n - 1);
      BlockAt(last, run, limit, n);
    }
  }

  /** From block m on up to block n, the proposal stops voting, or its end moves, or nothing happens to it. */
  lemma {:induction false} UntilBlock(s: Store, env: Env, run: nat -> Block, limit: nat, last: Time, id: nat, m: nat, n: nat)
    returns (k: nat)
    requires Good(s, last) && PositiveQuorum(env) && Endless(last, run, limit) && s.dao.limit <= limit
    requires m <= n && IsVoting(At(s, env, run, m), id)
    ensures m <= k <= n && id in At(s, env, run, k).proposals
    ensures !IsVoting(At(s, env, run, k), id)
            || MovesLeft(At(s, env, run, k), id, limit) < MovesLeft(At(s, env, run, m), id, limit)
            || (k == n && At(s, env, run, k).proposals[id].votingEnd == At(s, env, run, m).proposals[id].votingEnd
                && MovesLeft(At(s, env, run, k), id, limit) <= MovesLeft(At(s, env, run, m), id, limit))
    decreases n - m
  {
    hide Good, PositiveQuorum, Step, MovesLeft, Endless;
    if m == n {
      k := m;
    } else {
      var j := UntilBlock(s, env, run, limit, last, id, m, n - 1);
      var sj := At(s, env, run, j);
      if !IsVoting(sj, id) || MovesLeft(sj, id, limit) < MovesLeft(At(s, env, run, m), id, limit) {
        k := j;
      } else {
        AtGood(s, env, run, limit, last, j);
        BlockAt(last, run, limit, j);
        MoveUsesUp(sj, env, run(j), TimeAt(last, run, j), id, limit);
        k := n;
      }
    }
  }

  /**
   Liveness: in every endless run, however often the DAO parameters change, every voting
   proposal leaves the voting period as long as the limit of extensions stays below some bound;
   and then, being closed or vetoed, it stays out of it.
   */
  lemma {:induction false} EveryVoteEnds(s: Store, env: Env, run: nat -> Block, limit: nat, last: Time, id: nat, m: nat)
    returns (n: nat)
    requires Good(s, last) && PositiveQuorum(env) && Endless(last, run, limit) && s.dao.limit <= limit
    requires IsVoting(At(s, env, run, m), id)
    ensures n > m && id in At(s, env, run, n).proposals && !IsVoting(At(s, env, run, n), id)
    decreases MovesLeft(At(s, env, run, m), id, limit)
  {
    hide Good, PositiveQuorum, Step, MovesLeft, Endless, At;
    var sm := At(s, env, run, m);
    AtGood(s, env, run, limit, last, m);
    VotingEndSome(sm, TimeAt(last, run, m), id);
    var y := BlockReaching(last, run, limit, sm.proposals[id].votingEnd.value, m);
    var k := UntilBlock(s, env, run, limit, last, id, m, y);
    if !IsVoting(At(s, env, run, k), id) {
      n := k;
    } else if MovesLeft(At(s, env, run, k), id, limit) < MovesLeft(sm, id, limit) {
      n := EveryVoteEnds(s, env, run, limit, last, id, k);
    } else {
      DueBlock(s, env, run, limit, last, id, y);
      n := y + 1;
      if IsVoting(At(s, env, run, y + 1), id) {
        n := EveryVoteEnds(s, env, run, limit, last, id, y + 1);
      }
    }
  }

  /** At block y the end of the proposal has come: the block closes it or moves its end. */
  lemma DueBlock(s: Store, env: Env, run: nat -> Block, limit: nat, last: Time, id: nat, y: nat)
    requires Good(s, last) && PositiveQuorum(env) && Endless(last, run, limit) && s.dao.limit <= limit
    requires IsVoting(At(s, env, run, y), id)
    requires var p := At(s, env, run, y).proposals[id]; p.votingEnd.Some? && p.votingEnd.value <= run(y).time
    ensures id in At(s, env, run, y + 1).proposals
    ensures IsVoting(At(s, env, run, y + 1), id) ==>
              MovesLeft(At(s, env, run, y + 1), id, limit) < MovesLeft(At(s, env, run, y), id, limit)
  {
    hide Good, PositiveQuorum, Step, MovesLeft, Endless;
    var sy := At(s, env, run, y);
    AtGood(s, env, run, limit, last, y);
    BlockAt(last, run, limit, y);
    MoveUsesUp(sy, env, run(y), TimeAt(last, run, y), id, limit);
    if Step(sy, env, run(y)).proposals[id].votingEnd == sy.proposals[id].votingEnd {
      DueIsClosed(sy, env, run(y), TimeAt(last, run, y), id);
    }
  }

  lemma VotingEndSome(s: Store, last: Time, id: nat)
    requires Good(s, last) && IsVoting(s, id)
    ensures s.proposals[id].votingEnd.Some?
  {
    VotingAtId(s, id);
  }
}
