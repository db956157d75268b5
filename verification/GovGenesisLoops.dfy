/** ExportGenesis and InitGenesis as the loops they are, on the gov keeper. */
module GovGenesisLoops {
  import opened Options
  import opened GovTypes
  import opened CoinSums
  import opened GovStore
  import opened GovBlock
  import opened GovEndBlock
  import opened GovGenesis
  import opened GovKeeper

  predicate Ascending<V>(xs: seq<(nat, V)>) {
    forall i, j | 0 <= i < j < |xs| :: xs[i].0 < xs[j].0
  }

  lemma ListsAppend<K, V>(xs: seq<(K, V)>, m: map<K, V>, k: K, v: V)
    requires Lists(xs, m) && k !in m
    ensures Lists(xs + [(k, v)], m[k := v])
  {
    ListsOne(k, v);
    ListsConcat(xs, m, [(k, v)], map[k := v]);
    hide Lists;
    assert m + map[k := v] == m[k := v];
  }

  /** all without the keys still to come. */
  lemma OneMoreListed<K, V>(xs: seq<(K, V)>, all: map<K, V>, left: set<K>, k: K)
    requires Lists(xs, all - left) && k in left && k in all
    ensures Lists(xs + [(k, all[k])], all - (left - {k}))
  {
    ListsAppend(xs, all - left, k, all[k]);
    hide Lists;
    assert (all - left)[k := all[k]] == all - (left - {k});
  }

  lemma NoneListed<K, V>(all: map<K, V>)
    ensures Lists([], all - all.Keys) && all - {} == all
  {
  }

  /** The deposits or the votes of a proposal, as iterating over them lists them. */
  method ListOf<K(==), V>(all: map<K, V>) returns (xs: seq<(K, V)>)
    ensures Lists(xs, all)
  {
    var left := all.Keys;
    xs := [];
    NoneListed(all);
    hide Lists;
    while left != {}
      invariant left <= all.Keys && Lists(xs, all - left)
      decreases |left|
    {
      var k :| k in left;
      OneMoreListed(xs, all, left, k);
      xs := xs + [(k, all[k])];
      left := left - {k};
    }
  }

  predicate IsLeastId(x: nat, ids: set<nat>) {
    x in ids && forall y | y in ids :: x <= y
  }

  lemma {:induction false} LeastId(ids: set<nat>)
    requires ids != {}
    ensures exists x :: IsLeastId(x, ids)
    decreases |ids|
  {
    var a :| a in ids;
    if ids == {a} {
      assert IsLeastId(a, ids);
    } else {
      LeastId(ids - {a});
      var b :| IsLeastId(b, ids - {a});
      LeastOfTwo(ids, a, b);
    }
  }

  lemma LeastOfTwo(ids: set<nat>, a: nat, b: nat)
    requires a in ids && IsLeastId(b, ids - {a})
    ensures IsLeastId(if a < b then a else b, ids)
  {
    forall y | y in ids ensures (if a < b then a else b) <= y {
      if y != a { assert y in ids - {a}; }
    }
  }

  /** The listed ids ascend and lie before those still to come. */
  ghost predicate Before<V>(xs: seq<(nat, V)>, left: set<nat>) {
    Ascending(xs) && forall i, id | 0 <= i < |xs| && id in left :: xs[i].0 < id
  }

  lemma BeforeStep<V>(xs: seq<(nat, V)>, left: set<nat>, id: nat, v: V)
    requires Before(xs, left) && IsLeastId(id, left)
    ensures Before(xs + [(id, v)], left - {id})
  {
    var ys := xs + [(id, v)];
    forall i, y | 0 <= i < |ys| && y in left - {id} ensures ys[i].0 < y {
      if i == |xs| { assert id <= y; }
    }
  }

  /** GetProposals: all proposals in the order of their ids. */
  method GetProposals(k: Keeper) returns (xs: seq<(nat, Proposal)>)
    ensures Lists(xs, k.proposals) && Ascending(xs)
  {
    var all := k.proposals;
    var left := all.Keys;
    xs := [];
    NoneListed(all);
    hide Lists, IsLeastId;
    while left != {}
      invariant left <= all.Keys && Lists(xs, all - left) && Before(xs, left)
      decreases |left|
    {
      hide Before;
      LeastId(left);
      MemberOfLeast(left);
      var id :| id in left && IsLeastId(id, left);
      OneMoreListed(xs, all, left, id);
      BeforeStep(xs, left, id, all[id]);
      xs := xs + [(id, all[id])];
      left := left - {id};
    }
  }

  lemma MemberOfLeast(ids: set<nat>)
    ensures forall x :: IsLeastId(x, ids) ==> x in ids
  {
  }

  /** The ids of the first n proposals of a list. */
  function FirstIds<V>(xs: seq<(nat, V)>, n: nat): set<nat>
    requires n <= |xs|
  {
    set i | 0 <= i < n :: xs[i].0
  }

  lemma NextIds<V>(xs: seq<(nat, V)>, n: nat)
    requires n < |xs| && Ascending(xs)
    ensures FirstIds(xs, n + 1) == FirstIds(xs, n) + {xs[n].0} && xs[n].0 !in FirstIds(xs, n)
  {
  }

  lemma MoreOfProposals<V>(m: map<DKey, V>, ids: set<nat>, id: nat, xs: seq<(DKey, V)>, ys: seq<(DKey, V)>)
    requires id !in ids && Lists(xs, InProposals(m, ids)) && Lists(ys, OfProposal(m, id))
    ensures Lists(xs + ys, InProposals(m, ids + {id}))
  {
    ListsConcat(xs, InProposals(m, ids), ys, OfProposal(m, id));
    hide Lists;
    assert InProposals(m, ids) + OfProposal(m, id) == InProposals(m, ids + {id});
  }

  lemma {:induction false} ListedIds<V>(xs: seq<(nat, V)>, m: map<nat, V>)
    requires Lists(xs, m)
    ensures FirstIds(xs, |xs|) == m.Keys
    decreases |xs|
  {
    if xs != [] {
      var k := xs[0].0;
      ListedIds(xs[1..], m - {k});
      var rest := FirstIds(xs[1..], |xs[1..]|);
      forall id | id in FirstIds(xs, |xs|) ensures id in m.Keys {
        var i :| 0 <= i < |xs| && xs[i].0 == id;
        if i > 0 { assert xs[1..][i - 1].0 == id && id in rest; }
      }
      forall id | id in m.Keys ensures id in FirstIds(xs, |xs|) {
        if id == k {
          assert xs[0].0 == id;
        } else {
          assert id in (m - {k}).Keys && id in rest;
          var i :| 0 <= i < |xs[1..]| && xs[1..][i].0 == id;
          assert xs[i + 1].0 == id;
        }
      }
    }
  }

  lemma NoneOfProposals<V>(m: map<DKey, V>)
    ensures Lists([], InProposals(m, {}))
  {
  }

  method ExportGenesis(k: Keeper, now: Time) returns (g: Genesis)
    ensures ExportOf(g, k.Abs(), now) && Ascending(g.proposals)
  {
    var least := RequiredDeposit(k.Abs());
    assert least == if k.minDeposit.value == multiset{} then k.params.depositFloor else k.minDeposit.value;
    hide Lists, InProposals, OfProposal, Ascending, RequiredDeposit;
    var proposals := GetProposals(k);
    var deposits: seq<(DKey, Coins)> := [];
    var votes: seq<(DKey, Vote)> := [];
    NoneOfProposals(k.deposits);
    NoneOfProposals(k.votes);
    ListedIds(proposals, k.proposals);
    NoFirstIds(proposals);
    hide FirstIds, Keeper.Abs, ExportOf;
    ghost var s := k.Abs();
    AbsFields(k);
    for i := 0 to |proposals|
      invariant Lists(deposits, InProposals(k.deposits, FirstIds(proposals, i)))
      invariant Lists(votes, InProposals(k.votes, FirstIds(proposals, i)))
    {
      var id := proposals[i].0;
      NextIds(proposals, i);
      var ds := ListOf(OfProposal(k.deposits, id));
      MoreOfProposals(k.deposits, FirstIds(proposals, i), id, deposits, ds);
      deposits := deposits + ds;
      var vs := ListOf(OfProposal(k.votes, id));
      MoreOfProposals(k.votes, FirstIds(proposals, i), id, votes, vs);
      votes := votes + vs;
    }
    g := Genesis(k.nextId, deposits, votes, proposals, k.params, Some(MinDeposit(least, now)));
    Exported(g, s, now, FirstIds(proposals, |proposals|));
  }

  lemma NoFirstIds<V>(xs: seq<(nat, V)>)
    ensures FirstIds(xs, 0) == {}
  {
  }

  lemma AbsFields(k: Keeper)
    ensures var s := k.Abs();
            && s.proposals == k.proposals && s.deposits == k.deposits && s.votes == k.votes && s.nextId == k.nextId
            && s.params == k.params && s.minDeposit == k.minDeposit
  {
  }

  lemma Exported(g: Genesis, s: Store, now: Time, ids: set<nat>)
    requires ids == s.proposals.Keys
    requires g.startingId == s.nextId && g.params == s.params && Lists(g.proposals, s.proposals)
    requires Lists(g.deposits, InProposals(s.deposits, ids)) && Lists(g.votes, InProposals(s.votes, ids))
    requires g.lastMinDeposit == Some(MinDeposit(if s.minDeposit.value == multiset{} then s.params.depositFloor else s.minDeposit.value, now))
    ensures ExportOf(g, s, now)
  {
    hide Lists, InProposals;
  }

  /** One proposal of the genesis state: its queue entries and itself. */
  method ImportOne(k: Keeper, env: Env, now: Time, id: nat, p: Proposal)
    modifies k
    ensures k.Abs() == ImportProposal(old(k.Abs()), env, now, id, p)
  {
    hide GovStore.HasReachedQuorum, VotersOf;
    if p.status == DepositPeriod {
      k.inactive := k.inactive + {QKey(p.depositEnd, id)};
    } else if p.status == VotingPeriod {
      if p.votingEnd.None? {
        k.halted := true;
        return;
      }
      k.active := k.active + {QKey(p.votingEnd.value, id)};
    }
    k.SetProposal(id, p);
    if k.params.checkCount > 0 && p.status == VotingPeriod {
      if p.votingStart.None? {
        k.halted := true;
        return;
      }
      var timeout := p.votingStart.value + k.params.quorumTimeout;
      var entry := QuorumEntry(timeout, k.params.checkCount, 0);
      var quorum := false;
      if now > timeout {
        var check := k.HasReachedQuorum(env, id, p);
        VotersLocal(old(k.Abs()), k.Abs(), id);
        if check == QuorumError {
          k.halted := true;
          return;
        }
        quorum := check == Reached;
        if !quorum { entry := entry.(done := 1); }
      }
      if !quorum { k.quorum := k.quorum[QKey(timeout, id) := entry]; }
    }
  }

  method InitGenesis(k: Keeper, env: Env, now: Time, data: Genesis)
    modifies k
    ensures k.Abs() == Import(old(k.Abs()), env, now, data)
  {
    hide ImportProposals, Written, Amounts;
    var total := ImportRecords(k, data);
    ImportList(k, env, now, data.proposals);
    if k.world.gov != total { k.halted := true; }
    k.minDeposit := if data.lastMinDeposit.Some? then data.lastMinDeposit.value else MinDeposit(data.params.depositFloor, now);
  }

  method ImportRecords(k: Keeper, data: Genesis) returns (total: Coins)
    modifies k
    ensures k.Abs() == old(k.Abs()).(nextId := data.startingId, params := data.params,
                                     deposits := Written(old(k.deposits), data.deposits),
                                     votes := Written(old(k.votes), data.votes))
    ensures total == Amounts(data.deposits)
  {
    hide Written, Amounts;
    k.nextId := data.startingId;
    k.params := data.params;
    total := ImportDeposits(k, data.deposits);
    ImportVotes(k, data.votes);
  }

  method ImportDeposits(k: Keeper, xs: seq<(DKey, Coins)>) returns (total: Coins)
    modifies k`deposits
    ensures k.deposits == Written(old(k.deposits), xs) && total == Amounts(xs)
  {
    total := multiset{};
    assert xs[0..] == xs;
    for i := 0 to |xs|
      invariant Written(k.deposits, xs[i..]) == Written(old(k.deposits), xs)
      invariant total + Amounts(xs[i..]) == Amounts(xs)
    {
      assert xs[i..][1..] == xs[i + 1..];
      k.deposits := k.deposits[xs[i].0 := xs[i].1];
      total := total + xs[i].1;
    }
  }

  method ImportVotes(k: Keeper, xs: seq<(DKey, Vote)>)
    modifies k`votes
    ensures k.votes == Written(old(k.votes), xs)
  {
    assert xs[0..] == xs;
    for i := 0 to |xs|
      invariant Written(k.votes, xs[i..]) == Written(old(k.votes), xs)
    {
      assert xs[i..][1..] == xs[i + 1..];
      k.votes := k.votes[xs[i].0 := xs[i].1];
    }
  }

  method ImportList(k: Keeper, env: Env, now: Time, xs: seq<(nat, Proposal)>)
    modifies k
    ensures k.Abs() == ImportProposals(old(k.Abs()), env, now, xs)
  {
    hide ImportProposal;
    assert xs[0..] == xs;
    for i := 0 to |xs|
      invariant ImportProposals(k.Abs(), env, now, xs[i..]) == ImportProposals(old(k.Abs()), env, now, xs)
    {
      assert xs[i..][1..] == xs[i + 1..];
      ImportOne(k, env, now, xs[i].0, xs[i].1);
    }
  }
}
