/**
 Stores on which EndBlock panics: a passed proposal that empties the gov account before the
 next tally, and parameters that validation accepts with less than a nanosecond a check.  And
 the entry that DeleteProposal leaves behind, whose check would panic too.
 */
module GovPanicExamples {
  import opened Options
  import opened GovTypes
  import opened CoinSums
  import opened GovQueue
  import opened GovStore
  import opened GovEndBlock
  import opened GovInvariants
  import opened GovBlock
  import opened GovScan
  import opened GovHalts
  import opened GovTx
  import opened CoreDaos
  import opened GovSteps
  import opened GovRuns
  import opened GovPanics
  import LegacyDec

  // ---------------------------------------------------------------- the due keys of small queues

  lemma HeadIn(xs: seq<QKey>)
    ensures xs != [] ==> xs[0] in xs
  {
  }

  /** Two ascending sequences of the same keys are the same. */
  lemma {:induction false} SameKeys(xs: seq<QKey>, ys: seq<QKey>)
    requires Distinct(xs) && Distinct(ys) && forall k :: k in xs <==> k in ys
    ensures xs == ys
    decreases |xs|
  {
    HeadIn(ys);
    if xs != [] {
      assert xs[0] in ys;
      var j :| 0 <= j < |ys| && ys[j] == xs[0];
      assert ys[0] in xs;
      var i :| 0 <= i < |xs| && xs[i] == ys[0];
      assert i == 0;
      forall k ensures k in xs[1..] <==> k in ys[1..] {
        RestKeys(xs, k);
        RestKeys(ys, k);
      }
      SameKeys(xs[1..], ys[1..]);
    }
  }

  lemma RestKeys(xs: seq<QKey>, k: QKey)
    requires Distinct(xs) && xs != []
    ensures k in xs[1..] <==> k in xs && k != xs[0]
  {
    if k in xs && k != xs[0] {
      var i :| 0 <= i < |xs| && xs[i] == k;
      assert xs[1..][i - 1] == k;
    }
    if k in xs[1..] {
      var i :| 0 <= i < |xs[1..]| && xs[1..][i] == k;
      assert xs[i + 1] == k;
    }
  }

  lemma DueIs(q: set<QKey>, now: Time, ks: seq<QKey>)
    requires Distinct(ks) && forall k :: k in ks <==> k in q && k.time <= now
    ensures DueKeys(q, now) == ks
  {
    hide Sorted, Due;
    SameKeys(DueKeys(q, now), ks);
  }

  // ---------------------------------------------------------------- the drained account

  /** A proposal that has voted from 0 to 100 and owes one coin. */
  function Due100(messages: seq<Option<Message>>): Proposal {
    Proposal(VotingPeriod, multiset{"ul"}, 0, Some(0), Some(100), 0, "", false, messages, TallyResult(0, 0, 0))
  }

  /** One token is bonded, and its holder's vote passes a proposal without a burn. */
  function TallyOf(votes: map<Address, Vote>): TallyOutcome {
    if votes == map[] then TallyOutcome(false, false, TallyResult(0, 0, 0), 0, None)
    else TallyOutcome(true, false, TallyResult(1, 0, 0), LegacyDec.ONE, None)
  }

  /** A message that sends all that the gov account holds to an account. */
  function SendAll(w: World): World {
    w.(gov := multiset{}, accounts := AddAt(w.accounts, "b", w.gov))
  }

  /** A chain with one bonded token. */
  const CHAIN := Env((g, m, n, b, t) => m, w => Some(1), (w, a) => Some(LegacyDec.ONE), (w, p) => 1,
                        (w, p, votes) => TallyOf(votes), (w, p, o) => w, (w, m) => Some(SendAll(w)))

  const ONE: Coins := multiset{"ul"}
  const DEPOSITS: map<DKey, Coins> := map[DKey(1, "a") := ONE, DKey(2, "a") := ONE]
  const VOTES: map<DKey, Vote> := map[DKey(1, "v") := "yes", DKey(2, "v") := "yes"]
  const BOTH: seq<QKey> := [QKey(100, 1), QKey(100, 2)]

  /** Two proposals with votes that end at 100, and a gov account that covers both deposits. */
  function Drained(params: GovParams): Store {
    Store(map[1 := Due100([Some(Message("send", ""))]), 2 := Due100([])], {}, {QKey(100, 1), QKey(100, 2)}, map[], 0, 2, 3,
          DEPOSITS, VOTES, MinDeposit(multiset{}, 0), World(map[], ONE + ONE, map[], ONE + ONE), params,
          DaoParams("", "", 0, 1), false)
  }

  lemma OneDeposit(id: nat)
    requires id == 1 || id == 2
    ensures OfProposal(DEPOSITS, id) == map[DKey(id, "a") := ONE] && Sum(OfProposal(DEPOSITS, id)) == ONE
  {
    var ds := OfProposal(DEPOSITS, id);
    assert ds == map[DKey(id, "a") := ONE];
    SumRemove(ds, DKey(id, "a"));
    assert ds - {DKey(id, "a")} == map[];
  }

  lemma AllDeposits()
    ensures Sum(DEPOSITS) == ONE + ONE
  {
    OneDeposit(1);
    OneDeposit(2);
    SumSplit(DEPOSITS, 1);
    assert Without(DEPOSITS, 1) == OfProposal(DEPOSITS, 2);
    hide Sum, OfProposal, Without, ONE, DEPOSITS;
  }

  lemma DrainedDeposits(params: GovParams)
    ensures Records(Drained(params)) && Solvent(Drained(params))
  {
    hide Sum, OfProposal;
    OneDeposit(1);
    OneDeposit(2);
    AllDeposits();
    hide ONE;
  }

  lemma DrainedInv(params: GovParams)
    requires ParamsOk(params)
    ensures Inv(Drained(params))
  {
    DrainedDeposits(params);
    hide Records;
  }

  lemma BothDue(params: GovParams)
    ensures var s := Drained(params);
            DueKeys(s.active, 100) == BOTH && DueKeys(s.inactive, 100) == [] && DueKeys(s.quorum.Keys, 100) == []
  {
    var s := Drained(params);
    assert Distinct(BOTH) && forall k :: k in BOTH <==> k in s.active && k.time <= 100;
    DueIs(s.active, 100, BOTH);
    DueIs(s.inactive, 100, []);
    DueIs(s.quorum.Keys, 100, []);
  }

  lemma FirstHasVotes(params: GovParams)
    ensures VotesOf(Drained(params), 1) != map[]
  {
    assert DKey(1, "v") in VOTES;
    assert "v" in VotesOf(Drained(params), 1);
  }

  lemma VerdictDrains(w: World, p: Proposal, o: TallyOutcome)
    requires o.passes && p.messages == [Some(Message("send", ""))]
    ensures Verdict(CHAIN, w, p, o) == (Passed, SendAll(w))
  {
    var msgs := p.messages;
    assert msgs[1..] == [] && RunMessages(CHAIN, SendAll(w), msgs[1..]) == Some(SendAll(w));
    assert RunMessages(CHAIN, w, msgs) == Some(SendAll(w)) by { hide SendAll; }
    hide RunMessages, SendAll;
  }

  /** The first tally passes, and its message leaves the gov account empty. */
  lemma FirstTally(params: GovParams)
    ensures ActiveStep(Drained(params), CHAIN, 1).world.gov == multiset{}
  {
    var s := Drained(params);
    var p := s.proposals[1];
    FirstHasVotes(params);
    ActiveStepIs(s, CHAIN, 1);
    hide ActiveStep, SettleDeposits, Verdict, TalliedVotes, VotesOf;
    var o := TallyOf(VotesOf(s, 1));
    var w := SettleDeposits(s.(votes := TalliedVotes(s.votes, 1, o.err)), 1, o.burn).world;
    VerdictDrains(w, p, o);
  }

  lemma NothingElseDue(params: GovParams)
    ensures var s := Drained(params); AfterInactive(s, CHAIN, 100) == s && AfterQuorum(s, CHAIN, 100) == s
  {
    hide DueKeys, Drained;
    BothDue(params);
  }

  lemma SecondFails(params: GovParams)
    ensures TallyFails(Drained(params), CHAIN, BOTH, 1)
  {
    var s := Drained(params);
    FirstTally(params);
    hide ActiveStep;
    var first := [QKey(100, 1)];
    assert BOTH[..1] == first && first[1..] == [];
    assert ActivePass(s, CHAIN, first) == ActivePass(ActiveStep(s, CHAIN, 1), CHAIN, first[1..]);
    assert ActiveUpTo(s, CHAIN, BOTH, 1) == ActiveStep(s, CHAIN, 1);
    assert BOTH[1].id == 2 && s.proposals[2].totalDeposit == ONE;
    var none: Coins := multiset{};
    assert "ul" in ONE && !(ONE <= none);
  }

  /**
   Two proposals end in one block, both with the votes to pass, and the gov account covers the
   deposits of both.  The first one's message sends away what is left after its tally, and the
   tally of the second one panics.
   */
  lemma DrainedAccountExample(params: GovParams) returns (s: Store)
    requires ParamsOk(params)
    ensures Inv(s) && Solvent(s) && !s.halted && PositiveQuorum(CHAIN) && EndBlock(s, CHAIN, 100).halted
  {
    s := Drained(params);
    DrainedInv(params);
    DrainedDeposits(params);
    BothDue(params);
    NothingElseDue(params);
    SecondFails(params);
    hide Inv, Solvent, DueKeys, TallyFails, AfterInactive, AfterQuorum, EndBlock, ActivePass;
    EndBlockHaltsIff(s, CHAIN, 100);
  }

  // ---------------------------------------------------------------- less than a nanosecond a check

  /** 504 hours in nanoseconds. */
  const MIN_VOTING_PERIOD: Duration := 504 * 3600 * 1_000_000_000

  /** What ValidateBasic demands of the parameters modelled here. */
  predicate Validated(g: GovParams) {
    && 0 < g.depositPeriod && MIN_VOTING_PERIOD <= g.votingPeriod
    && (g.checkCount > 0 ==>
          0 <= g.quorumTimeout < g.votingPeriod && g.votingPeriod - g.quorumTimeout <= g.extension)
    && g.depositFloor != multiset{} && 0 <= g.depositRatio <= LegacyDec.ONE
  }

  lemma ValidatedIsOk(g: GovParams)
    ensures Validated(g) ==> ParamsOk(g)
  {
  }

  /** A timeout one nanosecond before the end of the shortest voting period, and two more checks. */
  const TIGHT := GovParams(1, MIN_VOTING_PERIOD, MIN_VOTING_PERIOD - 1, 1, 2, false, ONE, 0)

  const FIRST_CHECK := QKey(MIN_VOTING_PERIOD - 1, 1)

  /** A new chain under these parameters, and an account with one coin. */
  function TightChain(): Store {
    EmptyStore(World(map[], multiset{}, map["a" := ONE], ONE), TIGHT, DaoParams("", "", 0, 1))
  }

  /** A proposal submitted with that coin, which is the minimum deposit, so that its vote starts at once. */
  const SUBMISSION := Submission([], ONE, "a", ONE)

  function Submitted(): Store {
    Submit(TightChain(), 0, [])
  }

  /** The store after the submission. */
  function VoteStart(): Store {
    Deposited(Submitted(), CHAIN, 0, 1, "a", ONE)
  }

  lemma VoteStarts()
    ensures var s := VoteStart();
            && SubmitAndDeposit(TightChain(), CHAIN, 0, [], ONE, "a", ONE) == Done(s) && !s.halted
            && s.inactive == {} && s.active == {QKey(MIN_VOTING_PERIOD, 1)} && s.params == TIGHT
            && s.quorum == map[FIRST_CHECK := QuorumEntry(FIRST_CHECK.time, 2, 0)]
            && s.proposals.Keys == {1} && s.proposals[1].votingEnd == Some(MIN_VOTING_PERIOD) && s.votes == map[]
  {
    var s0, s1 := TightChain(), Submitted();
    assert "ul" in ONE && ONE["ul"] == 1;
    assert RequiredDeposit(s1) == ONE && Get(s1.world.accounts, "a") == ONE;
    assert MeetsRatio(ONE, 0, ONE) by { assert LegacyDec.TruncateInt(LegacyDec.Mul(LegacyDec.FromInt(1), 0)) == 0; }
    assert s1.proposals[1].totalDeposit + ONE == ONE;
    assert s1.inactive - {QKey(1, 1)} == {};
    hide MeetsRatio, AddAt, Pay;
  }
  /** The submission alone, and the block at the quorum timeout. */
  const TIGHT_RUN: seq<Block> := [Block(0, [SUBMISSION]), Block(FIRST_CHECK.time, [])]

  lemma NothingDue(s: Store, now: Time)
    requires DueKeys(s.inactive, now) == [] && DueKeys(s.quorum.Keys, now) == [] && DueKeys(s.active, now) == []
    ensures EndBlock(s, CHAIN, now) == s
  {
    hide DueKeys;
  }

  lemma TightDue(s: Store)
    requires s.inactive == {} && s.quorum.Keys == {FIRST_CHECK} && s.active == {QKey(MIN_VOTING_PERIOD, 1)}
    ensures DueKeys(s.inactive, 0) == [] && DueKeys(s.quorum.Keys, 0) == [] && DueKeys(s.active, 0) == []
    ensures DueKeys(s.inactive, FIRST_CHECK.time) == [] && DueKeys(s.quorum.Keys, FIRST_CHECK.time) == [FIRST_CHECK]
  {
    DueIs(s.inactive, 0, []);
    DueIs(s.quorum.Keys, 0, []);
    DueIs(s.active, 0, []);
    DueIs(s.inactive, FIRST_CHECK.time, []);
    DueIs(s.quorum.Keys, FIRST_CHECK.time, [FIRST_CHECK]);
  }

  lemma NobodyVoted(s: Store)
    requires s.votes == map[] && 1 in s.proposals
    ensures HasReachedQuorum(CHAIN, s.world, s.proposals[1], VotersOf(s, 1)) == NotReached
  {
    assert VotersOf(s, 1) == {};
    assert Share(0, 1) == 0 by { assert LegacyDec.Quo(0, LegacyDec.FromInt(1)) == 0; }
  }

  lemma FirstCheckFails(s: Store)
    requires Inv(s) && !s.halted && s.inactive == {} && s.active == {QKey(MIN_VOTING_PERIOD, 1)} && s.votes == map[]
    requires s.quorum == map[FIRST_CHECK := QuorumEntry(FIRST_CHECK.time, 2, 0)]
    requires s.proposals.Keys == {1} && s.proposals[1].votingEnd == Some(MIN_VOTING_PERIOD)
    ensures EndBlock(s, CHAIN, FIRST_CHECK.time).halted
  {
    var now := FIRST_CHECK.time;
    TightDue(s);
    NobodyVoted(s);
    hide Inv, DueKeys, EndBlock, ActivePass, HasReachedQuorum, VotersOf;
    assert AfterInactive(s, CHAIN, now) == s;
    assert CheckFails(s, CHAIN, now, FIRST_CHECK);
    assert FIRST_CHECK in DueKeys(s.quorum.Keys, now);
    EndBlockHaltsIff(s, CHAIN, now);
  }

  /**
   A run from a new chain on under parameters that validation accepts: one proposal is submitted
   with the minimum deposit, and the block at its quorum timeout, with no votes cast, panics.
   */
  lemma TightParametersPanicExample()
    ensures Validated(TIGHT) && Good(TightChain(), -1) && PositiveQuorum(CHAIN) && Timely(-1, TIGHT_RUN)
    ensures !Run(TightChain(), CHAIN, TIGHT_RUN[..1]).halted && Run(TightChain(), CHAIN, TIGHT_RUN).halted
  {
    hide Good, Inv, DueKeys, EndBlock, Apply, Run, TightChain, VoteStart;
    TightIsFine();
    TightStart();
    var s := VoteStart();
    TightDue(s);
    NothingDue(s, 0);
    FirstCheckFails(s);
    TwoBlocks(TightChain(), s);
  }

  lemma TightIsFine()
    ensures Validated(TIGHT) && PositiveQuorum(CHAIN) && Timely(-1, TIGHT_RUN) && Good(TightChain(), -1)
  {
    var s0 := TightChain();
    EmptyGood(s0.world, TIGHT, s0.dao, -1);
    hide Good;
    var second := TIGHT_RUN[1..];
    assert second[1..] == [] && Timely(FIRST_CHECK.time, second[1..]);
    assert second[0].time == FIRST_CHECK.time && Timely(0, second);
  }

  lemma TightStart()
    ensures var s := VoteStart();
            && Apply(TightChain(), CHAIN, 0, SUBMISSION) == s && Inv(s) && !s.halted
            && s.inactive == {} && s.active == {QKey(MIN_VOTING_PERIOD, 1)} && s.votes == map[]
            && s.quorum == map[FIRST_CHECK := QuorumEntry(FIRST_CHECK.time, 2, 0)]
            && s.proposals.Keys == {1} && s.proposals[1].votingEnd == Some(MIN_VOTING_PERIOD)
  {
    TightIsFine();
    VoteStarts();
    hide Inv, Submitted, SubmitAndDeposit, Deposited, TightChain;
    ApplyInv(TightChain(), CHAIN, 0, SUBMISSION);
  }

  lemma TwoBlocks(s0: Store, s: Store)
    requires Apply(s0, CHAIN, 0, SUBMISSION) == s && EndBlock(s, CHAIN, 0) == s
    ensures Run(s0, CHAIN, TIGHT_RUN[..1]) == s && Run(s0, CHAIN, TIGHT_RUN) == EndBlock(s, CHAIN, FIRST_CHECK.time)
  {
    hide Apply, EndBlock;
    var txs, none: seq<Tx> := [SUBMISSION], [];
    assert txs[1..] == none;
    assert ApplyAll(s0, CHAIN, 0, txs) == ApplyAll(s, CHAIN, 0, txs[1..]) == s;
    assert Step(s0, CHAIN, TIGHT_RUN[0]) == s && Step(s, CHAIN, TIGHT_RUN[1]) == EndBlock(s, CHAIN, FIRST_CHECK.time);
    var first, second := TIGHT_RUN[..1], TIGHT_RUN[1..];
    assert first[1..] == [] && second[1..] == [];
    assert Run(s0, CHAIN, first) == Run(s, CHAIN, first[1..]);
    assert Run(s0, CHAIN, TIGHT_RUN) == Run(s, CHAIN, second) == Run(EndBlock(s, CHAIN, FIRST_CHECK.time), CHAIN, second[1..]);
  }

  // ---------------------------------------------------------------- deleting a voting proposal

  lemma {:induction false} DropFirstEntryAt(s: Store, ks: seq<QKey>, id: nat, k: QKey)
    requires k.id == id && forall x | x in ks :: x.id in s.proposals && (x.id == id ==> x == k)
    ensures DropFirstEntry(s, ks, id) == s.(quorum := if k in ks then s.quorum - {k} else s.quorum)
    decreases |ks|
  {
    if ks != [] {
      assert ks[0] in ks && (forall x | x in ks[1..] :: x in ks);
      if ks[0].id != id { DropFirstEntryAt(s, ks[1..], id, k); }
    }
  }

  /**
   Deleting a proposal looks for its quorum-check entry only up to the start of the voting, so
   it leaves every entry that lies later, and the check of an entry it leaves panics.
   */
  lemma DeleteLeavesEntryIff(s: Store, env: Env, now: Time, k: QKey)
    requires QuorumQueue(s) && k in s.quorum && s.proposals[k.id].votingStart.Some?
    ensures var s', start := DeleteProposal(s, k.id), s.proposals[k.id].votingStart.value;
            && s'.halted == s.halted
            && (k in s'.quorum <==> start < k.time)
            && (k in s'.quorum ==> QuorumStep(s', env, now, k).halted)
  {
    EntryHasEnd(s, k);
    var p := s.proposals[k.id];
    var s1 := s.(inactive := s.inactive - {QKey(p.depositEnd, k.id)}, active := s.active - {QKey(p.votingEnd.value, k.id)});
    var ks := DueKeys(s1.quorum.Keys, p.votingStart.value);
    assert k in ks <==> k.time <= p.votingStart.value;
    forall x | x in ks ensures x.id in s1.proposals && (x.id == k.id ==> x == k) { assert x in s.quorum; }
    DropFirstEntryAt(s1, ks, k.id, k);
    DeleteKeeps(s, k.id);
    hide DueKeys, DropFirstEntry, QuorumQueue;
  }
}
