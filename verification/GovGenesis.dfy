/**
 Genesis of x/gov (x/gov/genesis.go): the exported state lists the proposals, deposits and
 votes, but neither the queues nor the counters; the import rebuilds the queues from the
 proposals.  What an export followed by an import restores, and what it does not.
 */
module GovGenesis {
  import opened Options
  import opened GovTypes
  import opened CoinSums
  import opened GovQueue
  import opened GovStore
  import opened GovEndBlock
  import opened GovInvariants
  import opened GovBlock
  import opened GovFate
  import opened GovSteps
  import opened GovRoom

  datatype Genesis = Genesis(
    startingId: nat,
    deposits: seq<(DKey, Coins)>,
    votes: seq<(DKey, Vote)>,
    proposals: seq<(nat, Proposal)>,
    params: GovParams,
    lastMinDeposit: Option<MinDeposit>)

  // ---------------------------------------------------------------- lists of a map

  /** xs lists the entries of m, each once, in some order. */
  ghost predicate Lists<K, V>(xs: seq<(K, V)>, m: map<K, V>)
    decreases |xs|
  {
    if xs == [] then m == map[]
    else xs[0].0 in m && m[xs[0].0] == xs[0].1 && Lists(xs[1..], m - {xs[0].0})
  }

  /** m after the entries of xs were written to it one by one. */
  function Written<K, V>(m: map<K, V>, xs: seq<(K, V)>): map<K, V>
    decreases |xs|
  {
    if xs == [] then m else Written(m[xs[0].0 := xs[0].1], xs[1..])
  }

  function Amounts<K>(xs: seq<(K, Coins)>): Coins
    decreases |xs|
  {
    if xs == [] then multiset{} else xs[0].1 + Amounts(xs[1..])
  }

  lemma {:induction false} ListedIsWritten<K, V>(base: map<K, V>, xs: seq<(K, V)>, m: map<K, V>)
    requires Lists(xs, m)
    ensures Written(base, xs) == base + m
    decreases |xs|
  {
    if xs == [] {
      assert base + m == base;
    } else {
      var (k, v) := xs[0];
      ListedIsWritten(base[k := v], xs[1..], m - {k});
      assert base[k := v] + (m - {k}) == base + m;
    }
  }

  lemma {:induction false} ListedAmounts<K(!new)>(xs: seq<(K, Coins)>, m: map<K, Coins>)
    requires Lists(xs, m)
    ensures Amounts(xs) == Sum(m)
    decreases |xs|
  {
    hide Sum;
    if xs == [] {
      SumEmpty(m);
    } else {
      ListedAmounts(xs[1..], m - {xs[0].0});
      SumRemove(m, xs[0].0);
    }
  }

  lemma {:induction false} ListsConcat<K, V>(xs: seq<(K, V)>, m: map<K, V>, ys: seq<(K, V)>, n: map<K, V>)
    requires Lists(xs, m) && Lists(ys, n) && m.Keys !! n.Keys
    ensures Lists(xs + ys, m + n)
    decreases |xs|
  {
    if xs == [] {
      assert xs + ys == ys && m + n == n;
    } else {
      var k := xs[0].0;
      ListsConcat(xs[1..], m - {k}, ys, n);
      assert (xs + ys)[1..] == xs[1..] + ys;
      assert (m + n) - {k} == (m - {k}) + n;
    }
  }

  lemma ListsOne<K, V>(k: K, v: V)
    ensures Lists([(k, v)], map[k := v])
  {
    assert map[k := v] - {k} == map[];
    assert [(k, v)][1..] == [];
  }

  // ---------------------------------------------------------------- export

  function InProposals<V>(m: map<DKey, V>, ids: set<nat>): map<DKey, V> {
    map d | d in m && d.id in ids :: m[d]
  }

  /** g is an export of s at the given time. */
  ghost predicate ExportOf(g: Genesis, s: Store, now: Time) {
    && g.startingId == s.nextId && g.params == s.params
    && Lists(g.proposals, s.proposals)
    && Lists(g.deposits, InProposals(s.deposits, s.proposals.Keys))
    && Lists(g.votes, InProposals(s.votes, s.proposals.Keys))
    && g.lastMinDeposit == Some(MinDeposit(if s.minDeposit.value == multiset{} then s.params.depositFloor else s.minDeposit.value, now))
  }

  /** Nothing is lost: every deposit and every vote belongs to a proposal. */
  lemma ExportIsComplete(s: Store)
    requires Inv(s)
    ensures InProposals(s.deposits, s.proposals.Keys) == s.deposits
    ensures InProposals(s.votes, s.proposals.Keys) == s.votes
  {
    hide Sum;
  }

  // ---------------------------------------------------------------- import

  /** The check made for a voting proposal whose quorum timeout has passed. */
  ghost function GenesisCheck(s: Store, env: Env, now: Time, id: nat, p: Proposal, timeout: Time): QuorumCheck {
    if now > timeout then HasReachedQuorum(env, s.world, p, VotersOf(s, id)) else NotReached
  }

  function GenesisEntry(g: GovParams, now: Time, timeout: Time): QuorumEntry {
    QuorumEntry(timeout, g.checkCount, if now > timeout then 1 else 0)
  }

  ghost function ImportVoting(s: Store, env: Env, now: Time, id: nat, p: Proposal): Store
    requires p.votingEnd.Some?
  {
    var s1 := s.(active := s.active + {QKey(p.votingEnd.value, id)}, proposals := s.proposals[id := p]);
    if s.params.checkCount == 0 then s1
    else if p.votingStart.None? then HaltIf(s1, true)
    else
      var timeout := p.votingStart.value + s.params.quorumTimeout;
      match GenesisCheck(s, env, now, id, p, timeout)
      case QuorumError => HaltIf(s1, true)
      case Reached => s1
      case NotReached => s1.(quorum := s1.quorum[QKey(timeout, id) := GenesisEntry(s.params, now, timeout)])
  }

  ghost function ImportProposal(s: Store, env: Env, now: Time, id: nat, p: Proposal): Store {
    if p.status == DepositPeriod then
      s.(inactive := s.inactive + {QKey(p.depositEnd, id)}, proposals := s.proposals[id := p])
    else if p.status != VotingPeriod then s.(proposals := s.proposals[id := p])
    else if p.votingEnd.None? then HaltIf(s, true)
    else ImportVoting(s, env, now, id, p)
  }

  ghost function ImportProposals(s: Store, env: Env, now: Time, ps: seq<(nat, Proposal)>): Store
    decreases |ps|
  {
    if ps == [] then s else ImportProposals(ImportProposal(s, env, now, ps[0].0, ps[0].1), env, now, ps[1..])
  }

  /** InitGenesis on a store: parameters, deposits, votes, proposals with their queue entries, and the balance check. */
  ghost function Import(s: Store, env: Env, now: Time, g: Genesis): Store {
    var s1 := s.(nextId := g.startingId, params := g.params,
                 deposits := Written(s.deposits, g.deposits), votes := Written(s.votes, g.votes));
    var s2 := ImportProposals(s1, env, now, g.proposals);
    HaltIf(s2.(minDeposit := if g.lastMinDeposit.Some? then g.lastMinDeposit.value else MinDeposit(g.params.depositFloor, now)),
           s2.world.gov != Amounts(g.deposits))
  }

  // ---------------------------------------------------------------- what the loop over the proposals builds

  function DepositIndex(ps: map<nat, Proposal>): set<QKey> {
    set id | id in ps && ps[id].status == DepositPeriod :: QKey(ps[id].depositEnd, id)
  }

  function VoteIndex(ps: map<nat, Proposal>): set<QKey> {
    set id | id in ps && ps[id].status == VotingPeriod && ps[id].votingEnd.Some? :: QKey(ps[id].votingEnd.value, id)
  }

  /** A voting proposal that is given a quorum-check entry, at its quorum timeout. */
  ghost predicate GetsEntry(s: Store, env: Env, now: Time, id: nat, p: Proposal) {
    && s.params.checkCount > 0 && p.status == VotingPeriod && p.votingEnd.Some? && p.votingStart.Some?
    && GenesisCheck(s, env, now, id, p, p.votingStart.value + s.params.quorumTimeout) == NotReached
  }

  ghost function NewEntries(s: Store, env: Env, now: Time, ps: map<nat, Proposal>): map<QKey, QuorumEntry> {
    map id | id in ps && GetsEntry(s, env, now, id, ps[id]) ::
      QKey(ps[id].votingStart.value + s.params.quorumTimeout, id) :=
        GenesisEntry(s.params, now, ps[id].votingStart.value + s.params.quorumTimeout)
  }

  /** A voting proposal whose quorum cannot be computed stops the import. */
  ghost predicate QuorumFails(s: Store, env: Env, now: Time, id: nat, p: Proposal) {
    && s.params.checkCount > 0 && p.status == VotingPeriod && p.votingStart.Some?
    && GenesisCheck(s, env, now, id, p, p.votingStart.value + s.params.quorumTimeout) == QuorumError
  }

  ghost predicate SomeQuorumFails(s: Store, env: Env, now: Time, ps: map<nat, Proposal>) {
    exists id :: id in ps && QuorumFails(s, env, now, id, ps[id])
  }

  predicate AllHaveTimes(ps: map<nat, Proposal>) {
    forall id | id in ps :: Times(ps[id])
  }

  /** s with the proposals ps and everything the import derives from them added. */
  ghost function WithProposals(s: Store, env: Env, now: Time, ps: map<nat, Proposal>): Store {
    HaltIf(s.(proposals := s.proposals + ps,
              inactive := s.inactive + DepositIndex(ps),
              active := s.active + VoteIndex(ps),
              quorum := s.quorum + NewEntries(s, env, now, ps)),
           SomeQuorumFails(s, env, now, ps))
  }

  // ---------------------------------------------------------------- the loop builds just that

  lemma DepositIndexAt(ps: map<nat, Proposal>, k: QKey)
    ensures k in DepositIndex(ps) <==> k.id in ps && ps[k.id].status == DepositPeriod && ps[k.id].depositEnd == k.time
  {
    if k.id in ps && ps[k.id].status == DepositPeriod && ps[k.id].depositEnd == k.time {
      assert k == QKey(ps[k.id].depositEnd, k.id);
    }
  }

  lemma VoteIndexAt(ps: map<nat, Proposal>, k: QKey)
    ensures k in VoteIndex(ps) <==> k.id in ps && ps[k.id].status == VotingPeriod && ps[k.id].votingEnd == Some(k.time)
  {
    if k.id in ps && ps[k.id].status == VotingPeriod && ps[k.id].votingEnd == Some(k.time) {
      assert k == QKey(ps[k.id].votingEnd.value, k.id);
    }
  }

  lemma NewEntriesAt(s: Store, env: Env, now: Time, ps: map<nat, Proposal>, k: QKey)
    ensures k in NewEntries(s, env, now, ps) <==>
            k.id in ps && GetsEntry(s, env, now, k.id, ps[k.id]) && k.time == ps[k.id].votingStart.value + s.params.quorumTimeout
    ensures k in NewEntries(s, env, now, ps) ==> NewEntries(s, env, now, ps)[k] == GenesisEntry(s.params, now, k.time)
  {
    hide GenesisEntry, GenesisCheck;
    if k.id in ps && GetsEntry(s, env, now, k.id, ps[k.id]) && k.time == ps[k.id].votingStart.value + s.params.quorumTimeout {
      assert k == QKey(ps[k.id].votingStart.value + s.params.quorumTimeout, k.id);
    }
  }

  lemma IndexSplit(ps: map<nat, Proposal>, id: nat)
    requires id in ps
    ensures DepositIndex(ps) == DepositIndex(map[id := ps[id]]) + DepositIndex(ps - {id})
    ensures VoteIndex(ps) == VoteIndex(map[id := ps[id]]) + VoteIndex(ps - {id})
  {
    hide DepositIndex, VoteIndex;
    forall k: QKey ensures k in DepositIndex(ps) <==> k in DepositIndex(map[id := ps[id]]) + DepositIndex(ps - {id}) {
      DepositIndexAt(ps, k);
      DepositIndexAt(map[id := ps[id]], k);
      DepositIndexAt(ps - {id}, k);
    }
    forall k: QKey ensures k in VoteIndex(ps) <==> k in VoteIndex(map[id := ps[id]]) + VoteIndex(ps - {id}) {
      VoteIndexAt(ps, k);
      VoteIndexAt(map[id := ps[id]], k);
      VoteIndexAt(ps - {id}, k);
    }
  }

  /** Whether a proposal gets an entry depends on the votes, the world and the parameters only. */
  lemma SameContext(s: Store, s': Store, env: Env, now: Time, ps: map<nat, Proposal>)
    requires s'.votes == s.votes && s'.world == s.world && s'.params == s.params
    ensures NewEntries(s', env, now, ps) == NewEntries(s, env, now, ps)
    ensures SomeQuorumFails(s', env, now, ps) == SomeQuorumFails(s, env, now, ps)
  {
    hide GetsEntry, QuorumFails, NewEntries, GenesisEntry;
    forall id | id in ps ensures QuorumFails(s', env, now, id, ps[id]) == QuorumFails(s, env, now, id, ps[id]) {
      SameContextAt(s, s', env, now, id, ps[id]);
    }
    var m, m' := NewEntries(s, env, now, ps), NewEntries(s', env, now, ps);
    forall k: QKey ensures (k in m <==> k in m') && (k in m ==> m[k] == m'[k]) {
      NewEntriesAt(s, env, now, ps, k);
      NewEntriesAt(s', env, now, ps, k);
      if k.id in ps { SameContextAt(s, s', env, now, k.id, ps[k.id]); }
    }
    assert m.Keys == m'.Keys;
  }

  lemma SameContextAt(s: Store, s': Store, env: Env, now: Time, id: nat, p: Proposal)
    requires s'.votes == s.votes && s'.world == s.world && s'.params == s.params
    ensures GetsEntry(s', env, now, id, p) == GetsEntry(s, env, now, id, p)
    ensures QuorumFails(s', env, now, id, p) == QuorumFails(s, env, now, id, p)
  {
    hide HasReachedQuorum, VotersOf;
    SameVoters(s, s', id);
  }

  lemma EntriesSplit(s: Store, env: Env, now: Time, ps: map<nat, Proposal>, id: nat)
    requires id in ps
    ensures NewEntries(s, env, now, ps) ==
            NewEntries(s, env, now, map[id := ps[id]]) + NewEntries(s, env, now, ps - {id})
  {
    hide NewEntries, GetsEntry, GenesisEntry;
    var all, one, rest := NewEntries(s, env, now, ps), NewEntries(s, env, now, map[id := ps[id]]), NewEntries(s, env, now, ps - {id});
    forall k: QKey ensures (k in all <==> k in one || k in rest)
                        && (k in rest ==> k in all && all[k] == rest[k]) && (k in one ==> k in all && all[k] == one[k]) {
      NewEntriesAt(s, env, now, ps, k);
      NewEntriesAt(s, env, now, map[id := ps[id]], k);
      NewEntriesAt(s, env, now, ps - {id}, k);
    }
    assert all.Keys == (one + rest).Keys;
  }

  lemma FailsSplit(s: Store, env: Env, now: Time, ps: map<nat, Proposal>, id: nat)
    requires id in ps
    ensures SomeQuorumFails(s, env, now, ps) <==> QuorumFails(s, env, now, id, ps[id]) || SomeQuorumFails(s, env, now, ps - {id})
  {
    hide QuorumFails;
    if SomeQuorumFails(s, env, now, ps) {
      var x :| x in ps && QuorumFails(s, env, now, x, ps[x]);
      assert x != id ==> x in ps - {id} && QuorumFails(s, env, now, x, (ps - {id})[x]);
    }
    if SomeQuorumFails(s, env, now, ps - {id}) {
      var x :| x in ps - {id} && QuorumFails(s, env, now, x, (ps - {id})[x]);
      assert x in ps && QuorumFails(s, env, now, x, ps[x]);
    }
  }

  lemma OneEntryMade(s: Store, env: Env, now: Time, id: nat, p: Proposal)
    ensures NewEntries(s, env, now, map[id := p]) ==
            if GetsEntry(s, env, now, id, p)
            then map[QKey(p.votingStart.value + s.params.quorumTimeout, id) :=
                       GenesisEntry(s.params, now, p.votingStart.value + s.params.quorumTimeout)]
            else map[]
  {
    var m := NewEntries(s, env, now, map[id := p]);
    hide NewEntries, GenesisEntry, GenesisCheck;
    forall k: QKey ensures k in m <==> GetsEntry(s, env, now, id, p) && k == QKey(p.votingStart.value + s.params.quorumTimeout, id) {
      NewEntriesAt(s, env, now, map[id := p], k);
    }
    if GetsEntry(s, env, now, id, p) {
      NewEntriesAt(s, env, now, map[id := p], QKey(p.votingStart.value + s.params.quorumTimeout, id));
    } else {
      assert m.Keys == {};
    }
  }

  lemma OneIndexed(id: nat, p: Proposal)
    ensures DepositIndex(map[id := p]) == if p.status == DepositPeriod then {QKey(p.depositEnd, id)} else {}
    ensures VoteIndex(map[id := p]) ==
            if p.status == VotingPeriod && p.votingEnd.Some? then {QKey(p.votingEnd.value, id)} else {}
  {
    hide DepositIndex, VoteIndex;
    forall k: QKey ensures k in DepositIndex(map[id := p]) <==> p.status == DepositPeriod && k == QKey(p.depositEnd, id) {
      DepositIndexAt(map[id := p], k);
    }
    forall k: QKey ensures k in VoteIndex(map[id := p]) <==>
                           p.status == VotingPeriod && p.votingEnd.Some? && k == QKey(p.votingEnd.value, id) {
      VoteIndexAt(map[id := p], k);
    }
  }

  lemma OneFails(s: Store, env: Env, now: Time, id: nat, p: Proposal)
    ensures SomeQuorumFails(s, env, now, map[id := p]) <==> QuorumFails(s, env, now, id, p)
  {
    hide QuorumFails;
    if QuorumFails(s, env, now, id, p) { assert id in map[id := p]; }
  }

  /** One turn of the loop adds one proposal. */
  lemma ImportedOne(s: Store, env: Env, now: Time, id: nat, p: Proposal)
    requires Times(p)
    ensures ImportProposal(s, env, now, id, p) == WithProposals(s, env, now, map[id := p])
  {
    OneEntryMade(s, env, now, id, p);
    OneIndexed(id, p);
    OneFails(s, env, now, id, p);
    hide NewEntries, GenesisCheck, GenesisEntry, DepositIndex, VoteIndex, SomeQuorumFails;
    assert s.proposals[id := p] == s.proposals + map[id := p];
    assert s.inactive + {} == s.inactive && s.active + {} == s.active && s.quorum + map[] == s.quorum;
    if GetsEntry(s, env, now, id, p) {
      var t := p.votingStart.value + s.params.quorumTimeout;
      assert s.quorum[QKey(t, id) := GenesisEntry(s.params, now, t)] == s.quorum + map[QKey(t, id) := GenesisEntry(s.params, now, t)];
    }
  }

  lemma AddMore(s: Store, env: Env, now: Time, ps: map<nat, Proposal>, id: nat)
    requires id in ps
    ensures WithProposals(WithProposals(s, env, now, map[id := ps[id]]), env, now, ps - {id}) == WithProposals(s, env, now, ps)
  {
    var one, rest := map[id := ps[id]], ps - {id};
    var s1 := WithProposals(s, env, now, one);
    IndexSplit(ps, id);
    EntriesSplit(s, env, now, ps, id);
    FailsSplit(s, env, now, ps, id);
    OneFails(s, env, now, id, ps[id]);
    SameContext(s, s1, env, now, rest);
    OneAndRest(ps, id);
    hide DepositIndex, VoteIndex, NewEntries, SomeQuorumFails, QuorumFails;
    Merge(s.proposals, one, rest);
    Merge(s.quorum, NewEntries(s, env, now, one), NewEntries(s, env, now, rest));
    Union(s.inactive, DepositIndex(one), DepositIndex(rest));
    Union(s.active, VoteIndex(one), VoteIndex(rest));
  }

  lemma OneAndRest<V>(m: map<nat, V>, id: nat)
    requires id in m
    ensures map[id := m[id]] + (m - {id}) == m
  {
  }

  lemma Union<T>(a: set<T>, b: set<T>, c: set<T>)
    ensures (a + b) + c == a + (b + c)
  {
  }

  lemma Merge<K, V>(a: map<K, V>, b: map<K, V>, c: map<K, V>)
    ensures (a + b) + c == a + (b + c)
  {
  }

  lemma NothingNew(s: Store, env: Env, now: Time, none: map<nat, Proposal>)
    requires none == map[]
    ensures DepositIndex(none) == {} && VoteIndex(none) == {}
    ensures NewEntries(s, env, now, none) == map[] && !SomeQuorumFails(s, env, now, none)
  {
    hide GetsEntry, QuorumFails, GenesisEntry;
    assert NewEntries(s, env, now, none).Keys == {};
  }

  lemma NothingAdded(s: Store, env: Env, now: Time)
    ensures WithProposals(s, env, now, map[]) == s
  {
    var none: map<nat, Proposal> := map[];
    NothingNew(s, env, now, none);
    hide DepositIndex, VoteIndex, NewEntries, SomeQuorumFails;
    Nothing(s);
  }

  lemma Nothing(s: Store)
    ensures s.proposals + map[] == s.proposals && s.inactive + {} == s.inactive
    ensures s.active + {} == s.active && s.quorum + map[] == s.quorum
  {
  }

  lemma {:induction false} ImportBuilds(s: Store, env: Env, now: Time, xs: seq<(nat, Proposal)>, ps: map<nat, Proposal>)
    requires Lists(xs, ps) && AllHaveTimes(ps)
    ensures ImportProposals(s, env, now, xs) == WithProposals(s, env, now, ps)
    decreases |xs|
  {
    hide ImportProposal;
    if xs == [] {
      NothingAdded(s, env, now);
    } else {
      hide WithProposals;
      var (id, p) := xs[0];
      ImportedOne(s, env, now, id, p);
      ImportBuilds(ImportProposal(s, env, now, id, p), env, now, xs[1..], ps - {id});
      AddMore(s, env, now, ps, id);
    }
  }

  // ---------------------------------------------------------------- export, then import

  /** The gov store of a new chain, before InitGenesis. */
  predicate Empty(f: Store) {
    && f.proposals == map[] && f.inactive == {} && f.active == {} && f.quorum == map[]
    && f.nInactive == 0 && f.nActive == 0 && f.deposits == map[] && f.votes == map[] && !f.halted
  }

  /** The new chain when the import comes to the proposals. */
  function Context(f: Store, s: Store): Store {
    f.(nextId := s.nextId, params := s.params, deposits := s.deposits, votes := s.votes)
  }

  lemma InvTimes(s: Store)
    requires Inv(s)
    ensures AllHaveTimes(s.proposals)
  {
  }

  lemma ImportedStore(s: Store, g: Genesis, at: Time, f: Store, env: Env, now: Time)
    requires Inv(s) && ExportOf(g, s, at) && Empty(f)
    ensures var c := Context(f, s);
            Import(f, env, now, g) ==
            c.(proposals := s.proposals, inactive := DepositIndex(s.proposals), active := VoteIndex(s.proposals),
               quorum := NewEntries(c, env, now, s.proposals), minDeposit := MinDeposit(RequiredDeposit(s), at),
               halted := SomeQuorumFails(c, env, now, s.proposals) || f.world.gov != Sum(s.deposits))
  {
    ExportIsComplete(s);
    InvTimes(s);
    ListedIsWritten(f.deposits, g.deposits, s.deposits);
    ListedIsWritten(f.votes, g.votes, s.votes);
    ListedAmounts(g.deposits, s.deposits);
    var c := Context(f, s);
    ImportBuilds(c, env, now, g.proposals, s.proposals);
    NothingBefore(s, DepositIndex(s.proposals), VoteIndex(s.proposals), NewEntries(c, env, now, s.proposals));
    hide Inv, Sum, Lists, Written, Amounts, ImportProposals, DepositIndex, VoteIndex, NewEntries, SomeQuorumFails, RequiredDeposit;
  }

  lemma NothingBefore(s: Store, i: set<QKey>, a: set<QKey>, q: map<QKey, QuorumEntry>)
    ensures map[] + s.deposits == s.deposits && map[] + s.votes == s.votes && map[] + s.proposals == s.proposals
    ensures {} + i == i && {} + a == a && map[] + q == q
  {
  }

  /**
   Export then import: proposals, deposits, votes, parameters, the minimum deposit and the two
   proposal queues come back as they were.  The import succeeds exactly when the gov account
   holds what was deposited, no more and no less, and no quorum has to be computed that cannot be.
   */
  lemma ExportThenImport(s: Store, g: Genesis, at: Time, f: Store, env: Env, now: Time)
    requires Inv(s) && ExportOf(g, s, at) && Empty(f)
    ensures var r := Import(f, env, now, g);
            && r.proposals == s.proposals && r.deposits == s.deposits && r.votes == s.votes && r.params == s.params
            && r.nextId == s.nextId && RequiredDeposit(r) == RequiredDeposit(s)
            && r.inactive == s.inactive && r.active == s.active && r.world == f.world
            && (!r.halted <==> f.world.gov == Sum(s.deposits) && !SomeQuorumFails(Context(f, s), env, now, s.proposals))
  {
    ImportedStore(s, g, at, f, env, now);
    SameIndexes(s);
    hide Sum, ExportOf, Import, DepositIndex, VoteIndex, NewEntries, SomeQuorumFails, Inv;
  }

  /**
   The same, written out: the minimum deposit that was in force is stored with the time of the
   export; and the quorum that has to be computed is that of each voting proposal whose timeout,
   counted from the start of its vote, has passed.
   */
  lemma ImportSucceedsIff(s: Store, g: Genesis, at: Time, f: Store, env: Env, now: Time)
    requires Inv(s) && ExportOf(g, s, at) && Empty(f)
    ensures var r := Import(f, env, now, g);
            && r.minDeposit == MinDeposit(if s.minDeposit.value == multiset{} then s.params.depositFloor else s.minDeposit.value, at)
            && (!r.halted <==>
                  && f.world.gov == Sum(s.deposits)
                  && forall id | s.params.checkCount > 0 && IsVoting(s, id) && s.proposals[id].votingStart.Some?
                                 && s.proposals[id].votingStart.value + s.params.quorumTimeout < now ::
                       HasReachedQuorum(env, f.world, s.proposals[id], VotersOf(s, id)) != QuorumError)
  {
    ImportedStore(s, g, at, f, env, now);
    hide Sum, ExportOf, Import, DepositIndex, VoteIndex, NewEntries, Inv;
    FailsIff(s, f, env, now);
    hide SomeQuorumFails, HasReachedQuorum, VotersOf, IsVoting;
  }

  lemma FailsIff(s: Store, f: Store, env: Env, now: Time)
    ensures SomeQuorumFails(Context(f, s), env, now, s.proposals) <==>
            exists id :: s.params.checkCount > 0 && IsVoting(s, id) && s.proposals[id].votingStart.Some?
                         && s.proposals[id].votingStart.value + s.params.quorumTimeout < now
                         && HasReachedQuorum(env, f.world, s.proposals[id], VotersOf(s, id)) == QuorumError
  {
    hide HasReachedQuorum, VotersOf;
    forall id | id in s.proposals
      ensures QuorumFails(Context(f, s), env, now, id, s.proposals[id]) <==>
              && s.params.checkCount > 0 && IsVoting(s, id) && s.proposals[id].votingStart.Some?
              && s.proposals[id].votingStart.value + s.params.quorumTimeout < now
              && HasReachedQuorum(env, f.world, s.proposals[id], VotersOf(s, id)) == QuorumError
    {
      SameVoters(Context(f, s), s, id);
    }
  }

  /** A genesis without a last minimum deposit starts from the floor of its parameters. */
  lemma ImportWithoutMinimum(f: Store, env: Env, now: Time, g: Genesis)
    ensures Import(f, env, now, g).minDeposit ==
            if g.lastMinDeposit.Some? then g.lastMinDeposit.value else MinDeposit(g.params.depositFloor, now)
  {
  }

  lemma SameIndexes(s: Store)
    requires Inv(s)
    ensures DepositIndex(s.proposals) == s.inactive && VoteIndex(s.proposals) == s.active
  {
    assert IndexesInactive(s.inactive, s.proposals) && IndexesActive(s.active, s.proposals);
    hide Inv, DepositIndex, VoteIndex;
    forall k ensures k in DepositIndex(s.proposals) <==> k in s.inactive { DepositIndexAt(s.proposals, k); }
    forall k ensures k in VoteIndex(s.proposals) <==> k in s.active { VoteIndexAt(s.proposals, k); }
  }

  /**
   The quorum-check queue after the import: one entry, at the quorum timeout, for exactly the
   voting proposals whose timeout has not passed or whose quorum is not reached; after the
   timeout it counts as checked once, so that a late quorum still extends the vote.
   */
  lemma ImportedEntries(s: Store, g: Genesis, at: Time, f: Store, env: Env, now: Time, k: QKey)
    requires Inv(s) && ExportOf(g, s, at) && Empty(f)
    ensures var q := Import(f, env, now, g).quorum;
            && (k in q <==>
                  && s.params.checkCount > 0 && IsVoting(s, k.id) && s.proposals[k.id].votingStart.Some?
                  && k.time == s.proposals[k.id].votingStart.value + s.params.quorumTimeout
                  && (now <= k.time ||
                      HasReachedQuorum(env, f.world, s.proposals[k.id], VotersOf(s, k.id)) == NotReached))
            && (k in q ==> q[k] == QuorumEntry(k.time, s.params.checkCount, if now > k.time then 1 else 0))
  {
    hide Inv, ExportOf, Import, Sum, DepositIndex, VoteIndex, NewEntries, SomeQuorumFails, HasReachedQuorum, VotersOf;
    ImportedStore(s, g, at, f, env, now);
    if IsVoting(s, k.id) { VotingHasEnd(s, k.id); }
    var c := Context(f, s);
    NewEntriesAt(c, env, now, s.proposals, k);
    SameVoters(c, s, k.id);
    hide Empty;
  }

  lemma SameVoters(s: Store, s': Store, id: nat)
    requires s.votes == s'.votes
    ensures VotersOf(s, id) == VotersOf(s', id)
  {
  }

  /**
   Every voting proposal that is to get an entry has room for it: the timeout in force now ends
   at least this much before the end of its voting period.  The world is the new chain's.
   */
  ghost predicate EntriesFit(s: Store, env: Env, w: World, now: Time, room: nat) {
    s.params.checkCount > 0 ==>
      forall id | IsVoting(s, id) && s.proposals[id].votingStart.Some? && s.proposals[id].votingEnd.Some? ::
        var p := s.proposals[id];
        var timeout := p.votingStart.value + s.params.quorumTimeout;
        (now <= timeout || HasReachedQuorum(env, w, p, VotersOf(s, id)) == NotReached) ==>
          timeout + room <= p.votingEnd.value
  }

  /**
   The import meets the quorum-queue invariant exactly when the entries it is to make lie within
   the votes, and leaves a nanosecond for each check exactly when they fit with their count.
   */
  lemma ImportedQuorumQueueIff(s: Store, g: Genesis, at: Time, f: Store, env: Env, now: Time)
    requires Inv(s) && ExportOf(g, s, at) && Empty(f)
    ensures var r := Import(f, env, now, g);
            && (QuorumQueue(r) <==> EntriesFit(s, env, f.world, now, 0))
            && (RoomyQueue(r.quorum, r.proposals) <==> EntriesFit(s, env, f.world, now, s.params.checkCount))
  {
    var r := Import(f, env, now, g);
    ExportThenImport(s, g, at, f, env, now);
    forall k ensures k in r.quorum <==> ToBeChecked(s, env, f.world, now, k) {
      ImportedEntries(s, g, at, f, env, now, k);
    }
    forall k | k in r.quorum ensures EntryIsNew(s, now, k, r.quorum[k]) {
      ImportedEntries(s, g, at, f, env, now, k);
      VotingHasEnd(s, k.id);
    }
    hide Inv, ExportOf, Import, EntryIsNew, ToBeChecked, EntriesFit, RoomyQueue, QuorumQueue;
    NewEntriesFit(s, r, now);
    FitsIff(s, env, f.world, now, 0);
    FitsIff(s, env, f.world, now, s.params.checkCount);
  }

  /** k is to be the key of a new entry. */
  ghost predicate ToBeChecked(s: Store, env: Env, w: World, now: Time, k: QKey) {
    && s.params.checkCount > 0 && IsVoting(s, k.id) && s.proposals[k.id].votingStart.Some?
    && k.time == s.proposals[k.id].votingStart.value + s.params.quorumTimeout
    && (now <= k.time || HasReachedQuorum(env, w, s.proposals[k.id], VotersOf(s, k.id)) == NotReached)
  }

  ghost predicate FitsAt(s: Store, k: QKey, room: nat) {
    k.id in s.proposals && s.proposals[k.id].votingEnd.Some? ==> k.time + room <= s.proposals[k.id].votingEnd.value
  }

  lemma FitsIff(s: Store, env: Env, w: World, now: Time, room: nat)
    ensures EntriesFit(s, env, w, now, room) <==> forall k | ToBeChecked(s, env, w, now, k) :: FitsAt(s, k, room)
  {
    hide HasReachedQuorum, VotersOf;
    if forall k | ToBeChecked(s, env, w, now, k) :: FitsAt(s, k, room) {
      forall id | s.params.checkCount > 0 && IsVoting(s, id)
                  && s.proposals[id].votingStart.Some? && s.proposals[id].votingEnd.Some?
        ensures var p := s.proposals[id];
                var timeout := p.votingStart.value + s.params.quorumTimeout;
                (now <= timeout || HasReachedQuorum(env, w, p, VotersOf(s, id)) == NotReached) ==>
                  timeout + room <= p.votingEnd.value
      {
        var k := QKey(s.proposals[id].votingStart.value + s.params.quorumTimeout, id);
        if ToBeChecked(s, env, w, now, k) { assert FitsAt(s, k, room); }
      }
    }
  }

  predicate EntryIsNew(s: Store, now: Time, k: QKey, e: QuorumEntry) {
    && IsVoting(s, k.id) && s.proposals[k.id].votingEnd.Some? && s.proposals[k.id].votingStart.Some?
    && s.params.checkCount > 0 && k.time == s.proposals[k.id].votingStart.value + s.params.quorumTimeout
    && e == QuorumEntry(k.time, s.params.checkCount, if now > k.time then 1 else 0)
  }

  lemma NewEntriesFit(s: Store, r: Store, now: Time)
    requires r.proposals == s.proposals && forall k | k in r.quorum :: EntryIsNew(s, now, k, r.quorum[k])
    ensures QuorumQueue(r) <==> forall k | k in r.quorum :: FitsAt(s, k, 0)
    ensures RoomyQueue(r.quorum, r.proposals) <==> forall k | k in r.quorum :: FitsAt(s, k, s.params.checkCount)
  {
    forall k | k in r.quorum ensures k.id in r.proposals
      && (EntryOk(k.time, r.quorum[k], r.proposals[k.id]) <==> FitsAt(s, k, 0))
      && (HasRoom(r.quorum[k], r.proposals[k.id]) <==> FitsAt(s, k, s.params.checkCount))
    {
      assert EntryIsNew(s, now, k, r.quorum[k]);
    }
    forall k, k' | k in r.quorum && k' in r.quorum && k.id == k'.id ensures k == k' {
      assert EntryIsNew(s, now, k, r.quorum[k]) && EntryIsNew(s, now, k', r.quorum[k']);
    }
    hide EntryOk, EntryIsNew, HasRoom, FitsAt;
  }

  /**
   The counters are not part of the genesis state and no step of the import sets them: they
   start at zero.  They agree with the queues exactly when there is no open proposal.
   */
  lemma CountersLost(s: Store, g: Genesis, at: Time, f: Store, env: Env, now: Time)
    requires Inv(s) && ExportOf(g, s, at) && Empty(f)
    ensures var r := Import(f, env, now, g);
            && r.nActive == 0 && r.nInactive == 0
            && (Queues(r) <==> forall id | id in s.proposals :: !Open(s.proposals[id]))
  {
    var r := Import(f, env, now, g);
    ImportedStore(s, g, at, f, env, now);
    ExportThenImport(s, g, at, f, env, now);
    assert Queues(s);
    hide Inv, ExportOf, Import, SomeQuorumFails, DepositIndex, VoteIndex, NewEntries;
    OpenIsQueued(s);
    hide IndexesActive, IndexesInactive, AllTimes;
  }

  lemma OpenIsQueued(s: Store)
    requires Queues(s)
    ensures s.active == {} && s.inactive == {} <==> forall id | id in s.proposals :: !Open(s.proposals[id])
  {
    if id :| id in s.proposals && Open(s.proposals[id]) {
      if s.proposals[id].status == VotingPeriod {
        assert QKey(s.proposals[id].votingEnd.value, id) in s.active;
      } else {
        assert QKey(s.proposals[id].depositEnd, id) in s.inactive;
      }
    }
    if k :| k in s.active { assert Open(s.proposals[k.id]); }
    if k :| k in s.inactive { assert Open(s.proposals[k.id]); }
  }

  /** With the counters lost, the first proposal to leave a queue stops the chain. */
  lemma LostCounterPanics(r: Store, env: Env, now: Time, id: nat)
    requires id in r.proposals
    ensures r.nActive == 0 && r.proposals[id].votingEnd.Some? ==> ActiveStep(r, env, id).halted
    ensures r.nInactive == 0 ==> InactiveStep(r, env, now, id).halted
  {
    hide SettleDeposits, MeetsDeposit, Verdict, VotesOf, TalliedVotes, DeleteProposal;
    var s1 := DeleteProposal(r, id);
    DeleteKeeps(r, id);
    SettleKeeps(s1, id, s1.params.burnPrevote);
    if r.proposals[id].votingEnd.Some? {
      var o := env.tally(r.world, r.proposals[id], VotesOf(r, id));
      SettleKeeps(r.(votes := TalliedVotes(r.votes, id, o.err)), id, o.burn);
    }
  }

  /** But for the counters, a successful import whose entries fit is a good store again, with all deposits covered. */
  lemma ImportedInvButCounters(s: Store, g: Genesis, at: Time, f: Store, env: Env, now: Time)
    requires Inv(s) && ExportOf(g, s, at) && Empty(f) && !Import(f, env, now, g).halted
    requires EntriesFit(s, env, f.world, now, 0)
    ensures var r := Import(f, env, now, g); Inv(r.(nActive := |r.active|, nInactive := |r.inactive|)) && Solvent(r)
  {
    hide ExportOf, Import, Empty, SomeQuorumFails, Sum, EntriesFit, Inv, QuorumQueue, RoomyQueue, RequiredDeposit;
    var r := Import(f, env, now, g);
    ExportThenImport(s, g, at, f, env, now);
    ImportedQuorumQueueIff(s, g, at, f, env, now);
    SameInvButCounters(s, r);
  }

  lemma SameInvButCounters(s: Store, r: Store)
    requires Inv(s) && QuorumQueue(r)
    requires r.proposals == s.proposals && r.inactive == s.inactive && r.active == s.active && r.nextId == s.nextId
    requires r.deposits == s.deposits && r.votes == s.votes && r.params == s.params
    ensures Inv(r.(nActive := |r.active|, nInactive := |r.inactive|))
  {
    hide IndexesActive, IndexesInactive, AllTimes, Sum, EntryOk;
  }

  /** A store with one proposal, voting from 0 to 100, under the given parameters. */
  function OneVoting(w: World, params: GovParams): Store {
    var p := Proposal(VotingPeriod, multiset{}, 0, Some(0), Some(100), 0, "", false, [], TallyResult(0, 0, 0));
    Store(map[1 := p], {}, {QKey(100, 1)}, map[], 0, 1, 2, map[], map[],
          MinDeposit(multiset{}, 0), w, params, DaoParams("", "", 0, 1), false)
  }

  function NewChain(w: World, params: GovParams): Store {
    EmptyStore(w, params, DaoParams("", "", 0, 1))
  }

  /** Its export at time 0. */
  function OneExported(w: World, params: GovParams): Genesis {
    var s := OneVoting(w, params);
    Genesis(2, [], [], [(1, s.proposals[1])], params, Some(MinDeposit(RequiredDeposit(s), 0)))
  }

  lemma OneVotingOk(w: World, params: GovParams)
    requires ParamsOk(params)
    ensures Inv(OneVoting(w, params)) && ExportOf(OneExported(w, params), OneVoting(w, params), 0)
    ensures Empty(NewChain(w, params)) && IsVoting(OneVoting(w, params), 1)
  {
    var s, g := OneVoting(w, params), OneExported(w, params);
    SumEmpty(s.deposits);
    SumEmpty(OfProposal(s.deposits, 1));
    var one: nat := 1;
    ListsOne(one, s.proposals[1]);
    hide Sum;
    assert Lists(g.proposals, s.proposals) && Lists(g.deposits, map[]) && Lists(g.votes, map[]);
    assert InProposals(s.deposits, s.proposals.Keys) == map[] && InProposals(s.votes, s.proposals.Keys) == map[];
  }

  lemma OneImportSucceeds(env: Env, w: World, params: GovParams)
    requires ParamsOk(params) && w.gov == multiset{} && params.quorumTimeout >= 0
    ensures !Import(NewChain(w, params), env, 0, OneExported(w, params)).halted
  {
    var s, g, f := OneVoting(w, params), OneExported(w, params), NewChain(w, params);
    OneVotingOk(w, params);
    SumEmpty(s.deposits);
    hide Inv, ExportOf, Import, Sum, HasReachedQuorum;
    ExportThenImport(s, g, 0, f, env, 0);
  }

  /** A chain with one voting proposal, exported and imported: the first tally stops the new chain. */
  lemma CountersLostExample(env: Env, w: World, params: GovParams) returns (s: Store, g: Genesis, f: Store)
    requires w.gov == multiset{} && ParamsOk(params) && params.quorumTimeout >= 0
    ensures Inv(s) && ExportOf(g, s, 0) && Empty(f) && IsVoting(s, 1)
    ensures !Import(f, env, 0, g).halted && ActiveStep(Import(f, env, 0, g), env, 1).halted
  {
    s, g, f := OneVoting(w, params), OneExported(w, params), NewChain(w, params);
    OneVotingOk(w, params);
    OneImportSucceeds(env, w, params);
    hide Import, Inv, ExportOf, ActiveStep;
    ExportThenImport(s, g, 0, f, env, 0);
    CountersLost(s, g, 0, f, env, 0);
    LostCounterPanics(Import(f, env, 0, g), env, 0, 1);
  }

  /**
   The parameters have changed since the proposal's voting began: the timeout now lies after its
   end.  The import succeeds, and makes an entry at a time when the voting will be over.
   */
  lemma MisfitExample(env: Env, w: World) returns (s: Store, g: Genesis, f: Store)
    requires w.gov == multiset{}
    ensures Inv(s) && ExportOf(g, s, 0) && Empty(f) && s.proposals.Keys == {1} && s.proposals[1].votingEnd == Some(100)
    ensures !Import(f, env, 0, g).halted && QKey(200, 1) in Import(f, env, 0, g).quorum && !QuorumQueue(Import(f, env, 0, g))
  {
    var params := GovParams(10, 1000, 200, 800, 1, false, multiset{"ul"}, 0);
    s, g, f := OneVoting(w, params), OneExported(w, params), NewChain(w, params);
    OneVotingOk(w, params);
    OneImportSucceeds(env, w, params);
    hide Import, Inv, ExportOf, QuorumQueue, HasReachedQuorum;
    ImportedQuorumQueueIff(s, g, 0, f, env, 0);
    ImportedEntries(s, g, 0, f, env, 0, QKey(200, 1));
  }
}
